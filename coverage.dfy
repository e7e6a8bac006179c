/**
 * The Korean layout covers the decomposer: every keystroke of every Hangul
 * syllable is typed by some key of the Korean two-set layout, so the search
 * for the target key never comes back empty while a Korean word is typed.
 */
module Coverage {
  import opened Options
  import opened Keyboard
  import Hangul
  import Words
  import Practice

  /** The row and column of the Korean-layout key that types a simple jamo. */
  function JamoPosition(j: char): Option<(nat, nat)>
  {
    match j
    case 'ㅂ' => Some((1, 1)) case 'ㅃ' => Some((1, 1)) case 'ㅈ' => Some((1, 2)) case 'ㅉ' => Some((1, 2))
    case 'ㄷ' => Some((1, 3)) case 'ㄸ' => Some((1, 3)) case 'ㄱ' => Some((1, 4)) case 'ㄲ' => Some((1, 4))
    case 'ㅅ' => Some((1, 5)) case 'ㅆ' => Some((1, 5)) case 'ㅛ' => Some((1, 6)) case 'ㅕ' => Some((1, 7))
    case 'ㅑ' => Some((1, 8)) case 'ㅐ' => Some((1, 9)) case 'ㅒ' => Some((1, 9)) case 'ㅔ' => Some((1, 10))
    case 'ㅖ' => Some((1, 10))
    case 'ㅁ' => Some((2, 1)) case 'ㄴ' => Some((2, 2)) case 'ㅇ' => Some((2, 3)) case 'ㄹ' => Some((2, 4))
    case 'ㅎ' => Some((2, 5)) case 'ㅗ' => Some((2, 6)) case 'ㅓ' => Some((2, 7)) case 'ㅏ' => Some((2, 8))
    case 'ㅣ' => Some((2, 9))
    case 'ㅋ' => Some((3, 1)) case 'ㅌ' => Some((3, 2)) case 'ㅊ' => Some((3, 3)) case 'ㅍ' => Some((3, 4))
    case 'ㅠ' => Some((3, 5)) case 'ㅜ' => Some((3, 6)) case 'ㅡ' => Some((3, 7))
    case _ => None
  }

  /** The key at a position of the table types its jamo. */
  lemma JamoPositionTypes(j: char)
    requires JamoPosition(j).Some?
    ensures var (r, c) := JamoPosition(j).value;
      r < |Korean101Layout| && c < |Korean101Layout[r]| && Types(Korean101Layout[r][c], [j])
  {
  }

  /** A character that some key of a layout types is found by the search. */
  lemma FoundWhereTyped(layout: Layout, r: nat, c: nat, ch: string)
    requires r < |layout| && c < |layout[r]| && Types(layout[r][c], ch)
    ensures FindTarget(Flatten(layout), ch).Some?
  {
    FlattenPosition(layout, r, c);
    FindTargetIsFirst(Flatten(layout), ch);
  }

  /** Every leading consonant has a key. */
  lemma LeadPositioned(l: int)
    requires 0 <= l < 19
    ensures JamoPosition(Hangul.Choseong[l]).Some?
  {
  }

  /** Every keystroke of every vowel has a key. */
  lemma VowelPositioned(v: int)
    requires 0 <= v < 21
    ensures forall k | 0 <= k < |Hangul.VowelKeys(v)| :: JamoPosition(Hangul.VowelKeys(v)[k]).Some?
  {
  }

  /** Every keystroke of every final has a key. */
  lemma FinalPositioned(t: int)
    requires 0 <= t < 28
    ensures forall k | 0 <= k < |Hangul.FinalKeys(t)| :: JamoPosition(Hangul.FinalKeys(t)[k]).Some?
  {
  }

  /** The keystrokes of a syllable all have a key on the Korean layout. */
  lemma SyllableKeystrokesPositioned(c: char, k: int)
    requires Hangul.IsSyllable(c) && 0 <= k < |Hangul.DecomposeChar(c)|
    ensures JamoPosition(Hangul.DecomposeChar(c)[k]).Some?
  {
    var (l, v, t) := Hangul.SyllableIndices(c);
    var vk, fk := Hangul.VowelKeys(v), Hangul.FinalKeys(t);
    var r := Hangul.DecomposeChar(c);
    assert r == [Hangul.Choseong[l]] + vk + fk;
    if k == 0 {
      LeadPositioned(l);
    } else if k < 1 + |vk| {
      VowelPositioned(v);
      assert r[k] == vk[k - 1];
    } else {
      FinalPositioned(t);
      assert r[k] == fk[k - 1 - |vk|];
    }
  }

  /**
   * Every keystroke of every Hangul syllable is typed by a key of the Korean
   * layout: the search for its target key always finds one.
   */
  lemma SyllableTypable(c: char, k: int)
    requires Hangul.IsSyllable(c) && 0 <= k < |Hangul.DecomposeChar(c)|
    ensures ResolveTarget(Korean101Layout, Some(Hangul.DecomposeChar(c)[k])).Some?
  {
    var j := Hangul.DecomposeChar(c)[k];
    SyllableKeystrokesPositioned(c, k);
    JamoPositionTypes(j);
    var (r, col) := JamoPosition(j).value;
    FoundWhereTyped(Korean101Layout, r, col, [j]);
  }

  /** A word made of Hangul syllables only. */
  predicate AllSyllables(word: string)
  {
    forall i | 0 <= i < |word| :: Hangul.IsSyllable(word[i])
  }

  /**
   * While a word of Hangul syllables is being typed, the next keystroke
   * always has a target key on the Korean layout, so no keystroke of the
   * word is left without a key to press.
   */
  lemma WordTypable(word: string, typed: int)
    requires AllSyllables(word) && 0 <= typed < |Hangul.Decompose(word)|
    ensures ResolveTarget(Korean101Layout, Some(Hangul.Decompose(word)[typed])).Some?
  {
    Words.ConcatMember(Hangul.DecomposeChar, word, typed);
    var j := Hangul.Decompose(word)[typed];
    var i :| 0 <= i < |word| && j in Hangul.DecomposeChar(word[i]);
    var k :| 0 <= k < |Hangul.DecomposeChar(word[i])| && Hangul.DecomposeChar(word[i])[k] == j;
    SyllableTypable(word[i], k);
  }

  /** Every Korean vocabulary word is made of Hangul syllables. */
  lemma KoreanVocabularyIsHangul()
    ensures forall w | w in Practice.KoreanWords :: w.KoreanEntry? && AllSyllables(w.word)
  {
  }

  /**
   * On a practice screen in a Korean mode there is a key to press until the
   * word is complete: the word shown comes from the Korean vocabulary, whose
   * words are all Hangul syllables.
   */
  lemma PracticeHasTarget(p: Practice.TypingPractice)
    requires p.Valid() && p.vocabulary == Practice.SourceList(p.mode)
    requires Practice.IsKoreanMode(p.mode) && !p.Completed()
    ensures p.CurrentTarget().Some?
  {
    assert p.queueIndex >= 1;
    var entry := p.queue[p.queueIndex - 1];
    assert entry in multiset(p.queue);
    assert entry in Practice.KoreanWords;
    KoreanVocabularyIsHangul();
    WordTypable(p.displayWord, p.typedCount);
  }
}
