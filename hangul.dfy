/**
 * The Hangul keystroke decomposer of the typing tutor.
 *
 * Every precomposed syllable U+AC00..U+D7A3 is split, by the arithmetic of
 * the Unicode Standard, chapter 3, section 3.12 ("Hangul Syllable
 * Decomposition"), into a leading consonant, a vowel and an optional final
 * consonant. They are emitted as Hangul Compatibility Jamo, the characters a
 * two-set Korean keyboard produces, and each compound vowel or compound final
 * is replaced by the two simple jamo that type it. Any other character passes
 * through unchanged.
 *
 * A character is a Dafny `char`, one Unicode scalar value, which is what one
 * step of the source's `for (const char of word)` loop yields. Each element of
 * the source's `string[]` result holds exactly one such character, so the
 * result is modelled as a `string`.
 */
module Hangul {
  import opened Options
  import Words

  /** First precomposed syllable, '가' (SBase of the Unicode Standard). */
  const HangulOffset: int := 0xAC00

  /** The 19 leading consonants, by leading index. */
  const Choseong: string := "ㄱㄲㄴㄷㄸㄹㅁㅂㅃㅅㅆㅇㅈㅉㅊㅋㅌㅍㅎ"

  /** The 21 vowels, by vowel index. */
  const Jungseong: string := "ㅏㅐㅑㅒㅓㅔㅕㅖㅗㅘㅙㅚㅛㅜㅝㅞㅟㅠㅡㅢㅣ"

  /**
   * The 27 final consonants for trailing indices 1..27: `Jongseong[t - 1]` is
   * the final of trailing index t. The source's table also holds an empty
   * string at index 0, "no final", which is never emitted.
   */
  const Jongseong: string := "ㄱㄲㄳㄴㄵㄶㄷㄹㄺㄻㄼㄽㄾㄿㅀㅁㅂㅄㅅㅆㅇㅈㅊㅋㅌㅍㅎ"

  /**
   * The table of the 7 compound vowels: the two keystrokes of each, and
   * nothing for any other character.
   */
  function ComplexVowel(j: char): Option<string> {
    match j
    case 'ㅘ' => Some("ㅗㅏ") case 'ㅙ' => Some("ㅗㅐ") case 'ㅚ' => Some("ㅗㅣ") case 'ㅝ' => Some("ㅜㅓ")
    case 'ㅞ' => Some("ㅜㅔ") case 'ㅟ' => Some("ㅜㅣ") case 'ㅢ' => Some("ㅡㅣ")
    case _ => None
  }

  /**
   * The table of the 11 compound finals: the two keystrokes of each, and
   * nothing for any other character.
   */
  function ComplexConsonant(j: char): Option<string> {
    match j
    case 'ㄳ' => Some("ㄱㅅ") case 'ㄵ' => Some("ㄴㅈ") case 'ㄶ' => Some("ㄴㅎ") case 'ㄺ' => Some("ㄹㄱ")
    case 'ㄻ' => Some("ㄹㅁ") case 'ㄼ' => Some("ㄹㅂ") case 'ㄽ' => Some("ㄹㅅ") case 'ㄾ' => Some("ㄹㅌ")
    case 'ㄿ' => Some("ㄹㅍ") case 'ㅀ' => Some("ㄹㅎ") case 'ㅄ' => Some("ㅂㅅ")
    case _ => None
  }

  /**
   * The source's range test `'가' <= char <= '힣'`. It compares UTF-16
   * strings; a character outside the Basic Multilingual Plane starts with a
   * high surrogate above U+D7A3, so it fails the test, as it does here.
   */
  predicate IsSyllable(c: char) {
    '가' <= c <= '힣'
  }

  /** A jamo that is in neither compound table: it has a key of its own. */
  predicate IsSimple(j: char) {
    ComplexVowel(j).None? && ComplexConsonant(j).None?
  }

  /** The leading, vowel and trailing indices of a syllable. */
  function SyllableIndices(c: char): (r: (int, int, int))
    requires IsSyllable(c)
    ensures 0 <= r.0 < 19 && 0 <= r.1 < 21 && 0 <= r.2 < 28
    ensures c as int == HangulOffset + (r.0 * 21 + r.1) * 28 + r.2
  {
    var charCode := c as int - HangulOffset;
    (charCode / (21 * 28), (charCode % (21 * 28)) / 28, charCode % 28)
  }

  /** The syllable with the given indices: the inverse of SyllableIndices. */
  function ComposeSyllable(l: int, v: int, t: int): (c: char)
    requires 0 <= l < 19 && 0 <= v < 21 && 0 <= t < 28
    ensures IsSyllable(c) && SyllableIndices(c) == (l, v, t)
  {
    var n := (l * 21 + v) * 28 + t;
    assert n == l * 588 + (v * 28 + t) && 0 <= v * 28 + t < 588;
    assert n / 588 == l && n % 588 == v * 28 + t;
    (HangulOffset + n) as char
  }

  /** The keystrokes of vowel index v: the pair of a compound vowel, else the vowel itself. */
  function VowelKeys(v: int): string
    requires 0 <= v < 21
  {
    var vowel := Jungseong[v];
    if ComplexVowel(vowel).Some? then ComplexVowel(vowel).value else [vowel]
  }

  /**
   * The keystrokes of trailing index t: none for index 0, else the pair of a
   * compound final, else the final itself.
   */
  function FinalKeys(t: int): string
    requires 0 <= t < 28
  {
    if t == 0 then ""
    else
      var consonant := Jongseong[t - 1];
      if ComplexConsonant(consonant).Some? then ComplexConsonant(consonant).value else [consonant]
  }

  /** The keystrokes of one character of a word (one pass of the source's loop body). */
  function DecomposeChar(c: char): string {
    if IsSyllable(c) then
      var r := SyllableIndices(c);
      [Choseong[r.0]] + VowelKeys(r.1) + FinalKeys(r.2)
    else
      [c]
  }

  /** The keystrokes of a word: each character's keystrokes, left to right. */
  function Decompose(word: string): string {
    Words.Concat(DecomposeChar, word)
  }

  /** Appending three pieces one after another appends their concatenation. */
  lemma AppendPieces(s: string, a: string, b: string, c: string)
    ensures s + a + b + c == s + (a + b + c)
  {
  }

  /** A string of two or more is its first element, a middle part and the rest. */
  lemma SplitThree(s: string, k: int)
    requires 1 <= k <= |s|
    ensures s == [s[0]] + s[1..k] + s[k..]
  {
  }

  /** `decomposeHangul`: pushes each character's keystrokes onto the result. */
  method DecomposeHangul(word: string) returns (result: string)
    ensures result == Decompose(word)
  {
    result := [];
    Words.EmptyPrefix(DecomposeChar, word);
    for i := 0 to |word|
      invariant result == Decompose(word[..i])
    {
      var ch := word[i];
      Words.ConcatStep(DecomposeChar, word, i);
      ghost var before := result;
      if '가' <= ch <= '힣' {
        var charCode := ch as int - HangulOffset;
        var choseongIndex := charCode / (21 * 28);
        var jungseongIndex := (charCode % (21 * 28)) / 28;
        var jongseongIndex := charCode % 28;
        assert (choseongIndex, jungseongIndex, jongseongIndex) == SyllableIndices(ch);

        result := result + [Choseong[choseongIndex]];

        var vowel := Jungseong[jungseongIndex];
        var vowelParts := ComplexVowel(vowel);
        if vowelParts.Some? {
          result := result + vowelParts.value;
        } else {
          result := result + [vowel];
        }
        assert result == before + [Choseong[choseongIndex]] + VowelKeys(jungseongIndex);
        ghost var afterVowel := result;

        if jongseongIndex > 0 {
          var consonant := Jongseong[jongseongIndex - 1];
          var consonantParts := ComplexConsonant(consonant);
          if consonantParts.Some? {
            result := result + consonantParts.value;
          } else {
            result := result + [consonant];
          }
        }
        assert result == afterVowel + FinalKeys(jongseongIndex);
        assert DecomposeChar(ch) == [Choseong[choseongIndex]] + VowelKeys(jungseongIndex) + FinalKeys(jongseongIndex);
        AppendPieces(before, [Choseong[choseongIndex]], VowelKeys(jungseongIndex), FinalKeys(jongseongIndex));
      } else {
        result := result + [ch];
      }
    }
    Words.WholePrefix(word);
  }

  // ---------------------------------------------------------------------
  // Properties of one syllable
  // ---------------------------------------------------------------------

  /** A consonant of the Hangul Compatibility Jamo block, U+3131..U+314E. */
  predicate IsConsonantJamo(j: char) {
    'ㄱ' <= j <= 'ㅎ'
  }

  /** A vowel of the Hangul Compatibility Jamo block, U+314F..U+3163. */
  predicate IsVowelJamo(j: char) {
    'ㅏ' <= j <= 'ㅣ'
  }

  /**
   * Each vowel is typed with one or two simple vowel jamo, two exactly for
   * the compound vowels.
   */
  lemma VowelKeysShape(v: int)
    requires 0 <= v < 21
    ensures |VowelKeys(v)| == (if ComplexVowel(Jungseong[v]).Some? then 2 else 1)
    ensures forall k | 0 <= k < |VowelKeys(v)| :: IsSimple(VowelKeys(v)[k]) && IsVowelJamo(VowelKeys(v)[k])
  {
  }

  /**
   * Each final is typed with none (trailing index 0), one or two simple
   * consonant jamo, two exactly for the compound finals.
   */
  lemma FinalKeysShape(t: int)
    requires 0 <= t < 28
    ensures |FinalKeys(t)| == (if t == 0 then 0 else if ComplexConsonant(Jongseong[t - 1]).Some? then 2 else 1)
    ensures forall k | 0 <= k < |FinalKeys(t)| :: IsSimple(FinalKeys(t)[k]) && IsConsonantJamo(FinalKeys(t)[k])
  {
  }

  /** Every leading consonant is a simple consonant jamo. */
  lemma LeadShape(l: int)
    requires 0 <= l < 19
    ensures IsSimple(Choseong[l]) && IsConsonantJamo(Choseong[l])
  {
  }

  /**
   * A lead, a vowel part and a final part joined: where each part sits, and
   * the last one or two elements when the final part has that many.
   */
  lemma PartsLayout(lead: char, vk: string, fk: string)
    ensures var r := [lead] + vk + fk;
      && |r| == 1 + |vk| + |fk| && r[0] == lead
      && r[1..1 + |vk|] == vk && r[1 + |vk|..] == fk
      && (|fk| == 2 ==> r[|r| - 2..] == fk)
      && (|fk| == 1 ==> r[|r| - 1] == fk[0])
      && (|vk| == 2 ==> r[1..3] == vk)
      && (|vk| >= 1 ==> r[1] == vk[0])
  {
    var r := [lead] + vk + fk;
    assert r[1..1 + |vk|] == vk;
    assert r[1 + |vk|..] == fk;
  }

  /** Every element of a lead, vowel part and final part made of simple jamo is simple. */
  lemma PartsSimple(lead: char, vk: string, fk: string)
    requires IsSimple(lead)
    requires forall k | 0 <= k < |vk| :: IsSimple(vk[k])
    requires forall k | 0 <= k < |fk| :: IsSimple(fk[k])
    ensures var r := [lead] + vk + fk; forall k | 0 <= k < |r| :: IsSimple(r[k])
  {
    var r := [lead] + vk + fk;
    forall k | 0 <= k < |r|
      ensures IsSimple(r[k])
    {
      if k == 0 {
      } else if k < 1 + |vk| {
        assert r[k] == vk[k - 1];
      } else {
        assert r[k] == fk[k - 1 - |vk|];
      }
    }
  }

  /**
   * The keystrokes of a syllable: its leading consonant, then its vowel or
   * the two components of a compound vowel in table order, then nothing for
   * trailing index 0, else its final or the two components of a compound
   * final. That is 2 to 5 keystrokes, each a simple jamo.
   */
  lemma SyllableKeystrokes(c: char)
    requires IsSyllable(c)
    ensures var r := DecomposeChar(c); var (l, v, t) := SyllableIndices(c);
      && |VowelKeys(v)| == (if ComplexVowel(Jungseong[v]).Some? then 2 else 1)
      && |FinalKeys(t)| == (if t == 0 then 0 else if ComplexConsonant(Jongseong[t - 1]).Some? then 2 else 1)
      && |r| == 1 + |VowelKeys(v)| + |FinalKeys(t)|
      && 2 <= |r| <= 5
      && r[0] == Choseong[l]
      && (ComplexVowel(Jungseong[v]).Some? ==> r[1..3] == ComplexVowel(Jungseong[v]).value)
      && (ComplexVowel(Jungseong[v]).None? ==> r[1] == Jungseong[v])
      && (t == 0 ==> |r| == 1 + |VowelKeys(v)|)
      && (t > 0 && ComplexConsonant(Jongseong[t - 1]).Some? ==> r[|r| - 2..] == ComplexConsonant(Jongseong[t - 1]).value)
      && (t > 0 && ComplexConsonant(Jongseong[t - 1]).None? ==> r[|r| - 1] == Jongseong[t - 1])
      && forall k | 0 <= k < |r| :: IsSimple(r[k])
  {
    var (l, v, t) := SyllableIndices(c);
    var vk, fk := VowelKeys(v), FinalKeys(t);
    VowelKeysShape(v);
    FinalKeysShape(t);
    LeadShape(l);
    assert DecomposeChar(c) == [Choseong[l]] + vk + fk;
    PartsLayout(Choseong[l], vk, fk);
    PartsSimple(Choseong[l], vk, fk);
  }

  // ---------------------------------------------------------------------
  // Recomposition: the keystrokes of a syllable determine it
  // ---------------------------------------------------------------------

  type LeadIndex = l: int | 0 <= l < 19
  type VowelIndex = v: int | 0 <= v < 21
  type TrailIndex = t: int | 0 <= t < 28

  /** Leading index of each leading consonant. */
  function LeadOf(x: char): Option<LeadIndex> {
    match x
    case 'ㄱ' => Some(0) case 'ㄲ' => Some(1) case 'ㄴ' => Some(2) case 'ㄷ' => Some(3) case 'ㄸ' => Some(4)
    case 'ㄹ' => Some(5) case 'ㅁ' => Some(6) case 'ㅂ' => Some(7) case 'ㅃ' => Some(8) case 'ㅅ' => Some(9)
    case 'ㅆ' => Some(10) case 'ㅇ' => Some(11) case 'ㅈ' => Some(12) case 'ㅉ' => Some(13) case 'ㅊ' => Some(14)
    case 'ㅋ' => Some(15) case 'ㅌ' => Some(16) case 'ㅍ' => Some(17) case 'ㅎ' => Some(18)
    case _ => None
  }

  /** Vowel index of each vowel typed with one key. */
  function VowelOfKey(x: char): Option<VowelIndex> {
    match x
    case 'ㅏ' => Some(0) case 'ㅐ' => Some(1) case 'ㅑ' => Some(2) case 'ㅒ' => Some(3) case 'ㅓ' => Some(4)
    case 'ㅔ' => Some(5) case 'ㅕ' => Some(6) case 'ㅖ' => Some(7) case 'ㅗ' => Some(8) case 'ㅛ' => Some(12)
    case 'ㅜ' => Some(13) case 'ㅠ' => Some(17) case 'ㅡ' => Some(18) case 'ㅣ' => Some(20)
    case _ => None
  }

  /** Vowel index of each compound vowel, by its two keys. */
  function VowelOfKeys(x: char, y: char): Option<VowelIndex> {
    match (x, y)
    case ('ㅗ', 'ㅏ') => Some(9) case ('ㅗ', 'ㅐ') => Some(10) case ('ㅗ', 'ㅣ') => Some(11)
    case ('ㅜ', 'ㅓ') => Some(14) case ('ㅜ', 'ㅔ') => Some(15) case ('ㅜ', 'ㅣ') => Some(16)
    case ('ㅡ', 'ㅣ') => Some(19)
    case _ => None
  }

  /** Trailing index of each final typed with one key. */
  function TrailOfKey(x: char): Option<TrailIndex> {
    match x
    case 'ㄱ' => Some(1) case 'ㄲ' => Some(2) case 'ㄴ' => Some(4) case 'ㄷ' => Some(7) case 'ㄹ' => Some(8)
    case 'ㅁ' => Some(16) case 'ㅂ' => Some(17) case 'ㅅ' => Some(19) case 'ㅆ' => Some(20) case 'ㅇ' => Some(21)
    case 'ㅈ' => Some(22) case 'ㅊ' => Some(23) case 'ㅋ' => Some(24) case 'ㅌ' => Some(25) case 'ㅍ' => Some(26)
    case 'ㅎ' => Some(27)
    case _ => None
  }

  /** Trailing index of each compound final, by its two keys. */
  function TrailOfKeys(x: char, y: char): Option<TrailIndex> {
    match (x, y)
    case ('ㄱ', 'ㅅ') => Some(3) case ('ㄴ', 'ㅈ') => Some(5) case ('ㄴ', 'ㅎ') => Some(6)
    case ('ㄹ', 'ㄱ') => Some(9) case ('ㄹ', 'ㅁ') => Some(10) case ('ㄹ', 'ㅂ') => Some(11)
    case ('ㄹ', 'ㅅ') => Some(12) case ('ㄹ', 'ㅌ') => Some(13) case ('ㄹ', 'ㅍ') => Some(14)
    case ('ㄹ', 'ㅎ') => Some(15) case ('ㅂ', 'ㅅ') => Some(18)
    case _ => None
  }

  /** The leading index of a leading consonant, if it is one. */
  function LeadIndexOf(x: char): (r: Option<LeadIndex>)
    ensures r.Some? ==> Choseong[r.value] == x
  {
    var found := LeadOf(x);
    if found.Some? && Choseong[found.value] == x then found else None
  }

  /** The vowel index typed by one or two keys, if they type a vowel. */
  function VowelIndexOf(keys: string): (r: Option<VowelIndex>)
    ensures r.Some? ==> VowelKeys(r.value) == keys
  {
    var found :=
      if |keys| == 1 then VowelOfKey(keys[0])
      else if |keys| == 2 then VowelOfKeys(keys[0], keys[1])
      else None;
    if found.Some? && VowelKeys(found.value) == keys then found else None
  }

  /** The trailing index typed by the keys of a final (none, one or two keys), if they type one. */
  function TrailIndexOf(keys: string): (r: Option<TrailIndex>)
    ensures r.Some? ==> FinalKeys(r.value) == keys
  {
    var found :=
      if |keys| == 0 then Some(0)
      else if |keys| == 1 then TrailOfKey(keys[0])
      else if |keys| == 2 then TrailOfKeys(keys[0], keys[1])
      else None;
    if found.Some? && FinalKeys(found.value) == keys then found else None
  }

  /**
   * The syllable a two-set keyboard composes from the keystrokes of one
   * syllable: a leading consonant, a vowel of two keys or else of one, then
   * the keys of a final, possibly none. None when the keystrokes are not of
   * that shape.
   */
  function Recompose(keys: string): Option<char> {
    if |keys| < 2 || LeadIndexOf(keys[0]).None? then None
    else
      var k := if |keys| >= 3 && VowelIndexOf(keys[1..3]).Some? && TrailIndexOf(keys[3..]).Some? then 3 else 2;
      var v, t := VowelIndexOf(keys[1..k]), TrailIndexOf(keys[k..]);
      if v.Some? && t.Some? then Some(ComposeSyllable(LeadIndexOf(keys[0]).value, v.value, t.value)) else None
  }

  /** Each leading consonant is found at its own index. */
  lemma LeadIndexOfInverts(l: int)
    requires 0 <= l < 19
    ensures LeadIndexOf(Choseong[l]) == Some(l)
  {
  }

  /**
   * The keys of each vowel are found to type that vowel. Each part below
   * checks a block of seven indices by evaluating the tables; the split into
   * blocks only keeps each evaluation small enough for the verifier, and the
   * blocks have no meaning of their own.
   */
  lemma VowelIndexOfInverts(v: int)
    requires 0 <= v < 21
    ensures VowelIndexOf(VowelKeys(v)) == Some(v)
  {
    if v < 7 {
      VowelIndexOfInvertsA(v);
    } else if v < 14 {
      VowelIndexOfInvertsB(v);
    } else {
      VowelIndexOfInvertsC(v);
    }
  }

  /** The keys of each vowel with vowel index 0..6 are found to type that vowel. */
  lemma VowelIndexOfInvertsA(v: int)
    requires 0 <= v < 7
    ensures VowelIndexOf(VowelKeys(v)) == Some(v)
  {
  }

  /** The keys of each vowel with vowel index 7..13 are found to type that vowel. */
  lemma VowelIndexOfInvertsB(v: int)
    requires 7 <= v < 14
    ensures VowelIndexOf(VowelKeys(v)) == Some(v)
  {
  }

  /** The keys of each vowel with vowel index 14..20 are found to type that vowel. */
  lemma VowelIndexOfInvertsC(v: int)
    requires 14 <= v < 21
    ensures VowelIndexOf(VowelKeys(v)) == Some(v)
  {
  }

  /**
   * The keys of each final are found to type that final. As for the vowels,
   * each part below evaluates the tables on a block of four indices; the
   * blocks only keep each evaluation small enough for the verifier.
   */
  lemma TrailIndexOfInverts(t: int)
    requires 0 <= t < 28
    ensures TrailIndexOf(FinalKeys(t)) == Some(t)
  {
    if t < 4 {
      TrailIndexOfInvertsA(t);
    } else if t < 8 {
      TrailIndexOfInvertsB(t);
    } else if t < 12 {
      TrailIndexOfInvertsC(t);
    } else if t < 16 {
      TrailIndexOfInvertsD(t);
    } else if t < 20 {
      TrailIndexOfInvertsE(t);
    } else if t < 24 {
      TrailIndexOfInvertsF(t);
    } else {
      TrailIndexOfInvertsG(t);
    }
  }

  /** The keys of each final with trailing index 0..3 are found to type that final. */
  lemma TrailIndexOfInvertsA(t: int)
    requires 0 <= t < 4
    ensures TrailIndexOf(FinalKeys(t)) == Some(t)
  {
  }

  /** The keys of each final with trailing index 4..7 are found to type that final. */
  lemma TrailIndexOfInvertsB(t: int)
    requires 4 <= t < 8
    ensures TrailIndexOf(FinalKeys(t)) == Some(t)
  {
  }

  /** The keys of each final with trailing index 8..11 are found to type that final. */
  lemma TrailIndexOfInvertsC(t: int)
    requires 8 <= t < 12
    ensures TrailIndexOf(FinalKeys(t)) == Some(t)
  {
  }

  /** The keys of each final with trailing index 12..15 are found to type that final. */
  lemma TrailIndexOfInvertsD(t: int)
    requires 12 <= t < 16
    ensures TrailIndexOf(FinalKeys(t)) == Some(t)
  {
  }

  /** The keys of each final with trailing index 16..19 are found to type that final. */
  lemma TrailIndexOfInvertsE(t: int)
    requires 16 <= t < 20
    ensures TrailIndexOf(FinalKeys(t)) == Some(t)
  {
  }

  /** The keys of each final with trailing index 20..23 are found to type that final. */
  lemma TrailIndexOfInvertsF(t: int)
    requires 20 <= t < 24
    ensures TrailIndexOf(FinalKeys(t)) == Some(t)
  {
  }

  /** The keys of each final with trailing index 24..27 are found to type that final. */
  lemma TrailIndexOfInvertsG(t: int)
    requires 24 <= t < 28
    ensures TrailIndexOf(FinalKeys(t)) == Some(t)
  {
  }

  /** Keys found to type a vowel are all vowel jamo. */
  lemma VowelIndexOfVowels(keys: string)
    ensures VowelIndexOf(keys).Some? ==> forall k | 0 <= k < |keys| :: IsVowelJamo(keys[k])
  {
    if VowelIndexOf(keys).Some? {
      VowelKeysShape(VowelIndexOf(keys).value);
    }
  }

  /** The keystrokes of given indices recompose to the syllable of those indices. */
  lemma RecomposeKeys(l: int, v: int, t: int)
    requires 0 <= l < 19 && 0 <= v < 21 && 0 <= t < 28
    ensures Recompose([Choseong[l]] + VowelKeys(v) + FinalKeys(t)) == Some(ComposeSyllable(l, v, t))
  {
    var vk, fk := VowelKeys(v), FinalKeys(t);
    var keys := [Choseong[l]] + vk + fk;
    LeadIndexOfInverts(l);
    VowelIndexOfInverts(v);
    TrailIndexOfInverts(t);
    VowelKeysShape(v);
    assert keys[0] == Choseong[l];
    if |vk| == 2 {
      assert keys[1..3] == vk && keys[3..] == fk;
    } else {
      assert keys[1..2] == vk && keys[2..] == fk;
      if |fk| > 0 {
        FinalKeysShape(t);
        VowelIndexOfVowels(keys[1..3]);
        assert keys[1..3][1] == fk[0];
        assert VowelIndexOf(keys[1..3]).None?;
      }
    }
  }

  /** Recomposing the keystrokes of a syllable gives back the syllable. */
  lemma RecomposeDecompose(c: char)
    requires IsSyllable(c)
    ensures Recompose(DecomposeChar(c)) == Some(c)
  {
    var (l, v, t) := SyllableIndices(c);
    assert DecomposeChar(c) == [Choseong[l]] + VowelKeys(v) + FinalKeys(t);
    RecomposeKeys(l, v, t);
    assert ComposeSyllable(l, v, t) as int == c as int;
  }

  /** Whatever Recompose accepts is exactly the keystrokes of the syllable it returns. */
  lemma DecomposeRecompose(keys: string)
    requires Recompose(keys).Some?
    ensures IsSyllable(Recompose(keys).value)
    ensures DecomposeChar(Recompose(keys).value) == keys
  {
    var k := if |keys| >= 3 && VowelIndexOf(keys[1..3]).Some? && TrailIndexOf(keys[3..]).Some? then 3 else 2;
    var l, v, t := LeadIndexOf(keys[0]).value, VowelIndexOf(keys[1..k]).value, TrailIndexOf(keys[k..]).value;
    assert Recompose(keys) == Some(ComposeSyllable(l, v, t));
    SplitThree(keys, k);
  }

  /**
   * Typing a syllable's keystrokes gives back that syllable, and no other
   * keystrokes give it: the keystroke sequence is exactly the syllable's.
   */
  lemma RecomposeIff(c: char, keys: string)
    requires IsSyllable(c)
    ensures Recompose(keys) == Some(c) <==> keys == DecomposeChar(c)
  {
    RecomposeDecompose(c);
    if Recompose(keys) == Some(c) {
      DecomposeRecompose(keys);
    }
  }

  /** Distinct characters have distinct keystrokes. */
  lemma DecomposeCharInjective(c1: char, c2: char)
    requires DecomposeChar(c1) == DecomposeChar(c2)
    ensures c1 == c2
  {
    if IsSyllable(c1) && IsSyllable(c2) {
      RecomposeDecompose(c1);
      RecomposeDecompose(c2);
    } else if IsSyllable(c1) {
      SyllableKeystrokes(c1);
    } else if IsSyllable(c2) {
      SyllableKeystrokes(c2);
    }
  }

  // ---------------------------------------------------------------------
  // Properties of whole words
  // ---------------------------------------------------------------------

  /** Every character has one to five keystrokes: exactly itself when it is not a syllable. */
  lemma DecomposeCharSize(c: char)
    ensures 1 <= |DecomposeChar(c)| <= 5
    ensures !IsSyllable(c) ==> DecomposeChar(c) == [c]
  {
    if IsSyllable(c) {
      SyllableKeystrokes(c);
    }
  }

  /** Every character has one to five keystrokes. */
  lemma KeystrokeBounds()
    ensures forall c :: 1 <= |DecomposeChar(c)| <= 5
  {
    forall c {
      DecomposeCharSize(c);
    }
  }

  /** Decomposing a concatenation concatenates the decompositions. */
  lemma DecomposeAppend(a: string, b: string)
    ensures Decompose(a + b) == Decompose(a) + Decompose(b)
  {
    Words.ConcatAppend(DecomposeChar, a, b);
  }

  /** The number of keystrokes of a word, summed character by character. */
  function KeystrokeCount(word: string): nat {
    Words.KeyTotal(DecomposeChar, word)
  }

  /**
   * A word has as many keystrokes as the sum over its characters, so never
   * fewer than it has characters and never more than five per character.
   */
  lemma DecomposeLength(word: string)
    ensures |Decompose(word)| == KeystrokeCount(word)
    ensures |word| <= |Decompose(word)| <= 5 * |word|
  {
    Words.ConcatLength(DecomposeChar, word);
    KeystrokeBounds();
    Words.ConcatBounds(DecomposeChar, word, 5);
  }

  /** A word without syllables decomposes to itself, character for character. */
  lemma DecomposePassThrough(word: string)
    requires forall i | 0 <= i < |word| :: !IsSyllable(word[i])
    ensures Decompose(word) == word
  {
    forall i | 0 <= i < |word| {
      DecomposeCharSize(word[i]);
    }
    Words.ConcatIdentity(DecomposeChar, word);
  }

  // ---------------------------------------------------------------------
  // The end index of each character's keystrokes
  // ---------------------------------------------------------------------

  /** For each character of a word, the index of its last keystroke in Decompose(word). */
  function EndIndices(word: string): (ends: seq<int>)
    ensures |ends| == |word|
  {
    Words.Ends(DecomposeChar, word)
  }

  /**
   * The running-count loop that builds the end-index table of a word: the
   * index advances by the number of keystrokes of each character in turn,
   * from -1.
   */
  method CharEndIndices(word: string) returns (indices: seq<int>)
    ensures indices == EndIndices(word)
  {
    indices := [];
    var currentIndex := -1;
    Words.EmptyPrefix(DecomposeChar, word);
    for i := 0 to |word|
      invariant indices == EndIndices(word[..i])
      invariant currentIndex == Words.LastEnd(indices)
    {
      var keys := DecomposeHangul([word[i]]);
      Words.EndsStep(DecomposeChar, word, i, indices, currentIndex, keys);
      currentIndex := currentIndex + |keys|;
      indices := indices + [currentIndex];
    }
    Words.WholePrefix(word);
  }

  /** The end index of character i is the index of the last keystroke of characters 0..i. */
  lemma EndIndexAt(word: string, i: int)
    requires 0 <= i < |word|
    ensures EndIndices(word)[i] == |Decompose(word[..i + 1])| - 1
  {
    Words.EndsAt(DecomposeChar, word, i);
  }

  /** End indices strictly increase. */
  lemma EndIndicesIncrease(word: string)
    ensures forall i, j | 0 <= i < j < |word| :: EndIndices(word)[i] < EndIndices(word)[j]
  {
    KeystrokeBounds();
    Words.EndsIncrease(DecomposeChar, word);
  }

  /**
   * The end index of character i is the number of keystrokes of characters
   * 0..i minus one: the first is one less than the first character's count,
   * each next one adds that character's count, so they strictly increase,
   * and the last is the index of the word's last keystroke.
   */
  lemma EndIndicesProperties(word: string)
    ensures var ends := EndIndices(word);
      && (forall i | 0 <= i < |word| :: ends[i] == KeystrokeCount(word[..i + 1]) - 1)
      && (forall i | 0 < i < |word| :: ends[i] == ends[i - 1] + |DecomposeChar(word[i])|)
      && (|word| > 0 ==> ends[0] == |DecomposeChar(word[0])| - 1)
      && (forall i, j | 0 <= i < j < |word| :: ends[i] < ends[j])
      && (|word| > 0 ==> ends[|word| - 1] == |Decompose(word)| - 1)
  {
    forall i | 0 <= i < |word|
      ensures EndIndices(word)[i] == KeystrokeCount(word[..i + 1]) - 1
    {
      Words.EndsSum(DecomposeChar, word, i);
    }
    forall i | 0 < i < |word|
      ensures EndIndices(word)[i] == EndIndices(word)[i - 1] + |DecomposeChar(word[i])|
    {
      Words.EndsAdvance(DecomposeChar, word, i);
    }
    if |word| > 0 {
      Words.EndsFirst(DecomposeChar, word);
    }
    EndIndicesIncrease(word);
  }

  /**
   * Two words of the vocabulary and a word of Latin letters: "사과" needs the
   * compound vowel of "과" typed as two keys, "닭" the compound final of
   * "닭", and Latin letters pass through.
   */
  lemma DecomposeExamples()
    ensures Decompose("사과") == "ㅅㅏㄱㅗㅏ"
    ensures Decompose("닭") == "ㄷㅏㄹㄱ"
    ensures Decompose("abc") == "abc"
  {
    assert SyllableIndices('사') == (9, 0, 0);
    assert SyllableIndices('과') == (0, 9, 0);
    assert SyllableIndices('닭') == (3, 0, 9);
    assert DecomposeChar('사') == "ㅅㅏ";
    assert DecomposeChar('과') == "ㄱㅗㅏ";
    assert DecomposeChar('닭') == "ㄷㅏㄹㄱ";
    Words.ConcatSingle(DecomposeChar, '닭');
    Words.ConcatSingle(DecomposeChar, '사');
    Words.ConcatSingle(DecomposeChar, '과');
    assert "사" + "과" == "사과";
    DecomposeAppend("사", "과");
    DecomposePassThrough("abc");
  }
}
