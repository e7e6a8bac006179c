/**
 * Words typed key by key. The keystrokes of a word are the keystrokes of
 * each of its characters in turn, and its end-index table gives, for each
 * character, the index of that character's last keystroke. Everything here
 * holds for any function from a character to its keystrokes; the Hangul
 * decomposer is the one the typing tutor uses.
 */
module Words {

  /** The keystrokes of a word: those of each character under keysOf, left to right. */
  function Concat(keysOf: char -> string, word: string): string {
    if word == [] then [] else Concat(keysOf, word[..|word| - 1]) + keysOf(word[|word| - 1])
  }

  /** The number of keystrokes of a word, summed character by character from the front. */
  function KeyTotal(keysOf: char -> string, word: string): nat {
    if word == [] then 0 else |keysOf(word[0])| + KeyTotal(keysOf, word[1..])
  }

  /**
   * For each character of a word, the index of its last keystroke in
   * Concat(keysOf, word): the table of the word without its last character,
   * then the index of the word's last keystroke.
   */
  function Ends(keysOf: char -> string, word: string): (ends: seq<int>)
    ensures |ends| == |word|
  {
    if word == [] then [] else Ends(keysOf, word[..|word| - 1]) + [|Concat(keysOf, word)| - 1]
  }

  /** The last entry of an end-index table; -1, before any keystroke, for the empty table. */
  function LastEnd(ends: seq<int>): int {
    if ends == [] then -1 else ends[|ends| - 1]
  }

  /** Every character takes at least one keystroke. */
  predicate Typable(keysOf: char -> string) {
    forall c :: |keysOf(c)| >= 1
  }

  /** A one-character word has that character's keystrokes. */
  lemma ConcatSingle(keysOf: char -> string, c: char)
    ensures Concat(keysOf, [c]) == keysOf(c)
  {
    assert [c][..0] == [];
  }

  /** The empty prefix has no keystrokes and an empty table. */
  lemma EmptyPrefix(keysOf: char -> string, word: string)
    ensures Concat(keysOf, word[..0]) == [] && Ends(keysOf, word[..0]) == [] && LastEnd([]) == -1
  {
    assert word[..0] == [];
  }

  /** The prefix of a word's full length is the word. */
  lemma WholePrefix(word: string)
    ensures word[..|word|] == word
  {
  }

  /** The keystrokes of the first i + 1 characters: those of the first i, then character i's. */
  lemma ConcatStep(keysOf: char -> string, word: string, i: int)
    requires 0 <= i < |word|
    ensures Concat(keysOf, word[..i + 1]) == Concat(keysOf, word[..i]) + keysOf(word[i])
  {
    assert word[..i + 1][..i] == word[..i];
  }

  /** The keystrokes of a concatenation are the concatenated keystrokes. */
  lemma {:induction false} ConcatAppend(keysOf: char -> string, a: string, b: string)
    ensures Concat(keysOf, a + b) == Concat(keysOf, a) + Concat(keysOf, b)
    decreases |b|
  {
    if b == [] {
      assert a + b == a;
    } else {
      var front := b[..|b| - 1];
      assert (a + b)[..|a + b| - 1] == a + front;
      assert (a + b)[|a + b| - 1] == b[|b| - 1];
      ConcatAppend(keysOf, a, front);
    }
  }

  /** A word has as many keystrokes as the sum of its characters' counts. */
  lemma {:induction false} ConcatLength(keysOf: char -> string, word: string)
    ensures |Concat(keysOf, word)| == KeyTotal(keysOf, word)
  {
    if word != [] {
      assert word == [word[0]] + word[1..];
      ConcatAppend(keysOf, [word[0]], word[1..]);
      ConcatSingle(keysOf, word[0]);
      ConcatLength(keysOf, word[1..]);
    }
  }

  /** With one to hi keystrokes per character, a word has between |word| and hi * |word|. */
  lemma {:induction false} ConcatBounds(keysOf: char -> string, word: string, hi: nat)
    requires forall c :: 1 <= |keysOf(c)| <= hi
    ensures |word| <= |Concat(keysOf, word)| <= hi * |word|
  {
    if word != [] {
      var front := word[..|word| - 1];
      ConcatBounds(keysOf, front, hi);
      assert hi * |word| == hi * |front| + hi;
    }
  }

  /** A word each of whose characters is its own keystroke is its own keystroke sequence. */
  lemma {:induction false} ConcatIdentity(keysOf: char -> string, word: string)
    requires forall i | 0 <= i < |word| :: keysOf(word[i]) == [word[i]]
    ensures Concat(keysOf, word) == word
  {
    if word != [] {
      var front := word[..|word| - 1];
      ConcatIdentity(keysOf, front);
      assert front + [word[|word| - 1]] == word;
    }
  }

  /** The end index of character i is the index of the last keystroke of characters 0..i. */
  lemma {:induction false} EndsAt(keysOf: char -> string, word: string, i: int)
    requires 0 <= i < |word|
    ensures Ends(keysOf, word)[i] == |Concat(keysOf, word[..i + 1])| - 1
    decreases |word|
  {
    var front := word[..|word| - 1];
    if i == |word| - 1 {
      assert word[..i + 1] == word;
    } else {
      EndsAt(keysOf, front, i);
      assert front[..i + 1] == word[..i + 1];
    }
  }

  /** The table of a word with one more character: the last end moved on by that character's count. */
  lemma EndsSnoc(keysOf: char -> string, front: string, c: char)
    ensures Ends(keysOf, front + [c]) == Ends(keysOf, front) + [LastEnd(Ends(keysOf, front)) + |keysOf(c)|]
  {
    var word := front + [c];
    assert word[..|word| - 1] == front;
    if front != [] {
      assert LastEnd(Ends(keysOf, front)) == |Concat(keysOf, front)| - 1;
    }
  }

  /** One step of the running count: the table of the first i + 1 characters. */
  lemma EndsStep(keysOf: char -> string, word: string, i: int, ends: seq<int>, last: int, keys: string)
    requires 0 <= i < |word| && ends == Ends(keysOf, word[..i]) && last == LastEnd(ends)
    requires keys == Concat(keysOf, [word[i]])
    ensures Ends(keysOf, word[..i + 1]) == ends + [last + |keys|]
    ensures LastEnd(ends + [last + |keys|]) == last + |keys|
  {
    assert word[..i + 1] == word[..i] + [word[i]];
    EndsSnoc(keysOf, word[..i], word[i]);
    ConcatSingle(keysOf, word[i]);
  }

  /**
   * End indices strictly increase: the table of the word without its last
   * character does, and the last entry exceeds all of them because the last
   * character has at least one keystroke.
   */
  lemma {:induction false} EndsIncrease(keysOf: char -> string, word: string)
    requires Typable(keysOf)
    ensures forall i, j | 0 <= i < j < |word| :: Ends(keysOf, word)[i] < Ends(keysOf, word)[j]
    decreases |word|
  {
    if word != [] {
      var front := word[..|word| - 1];
      var ends, before := Ends(keysOf, word), Ends(keysOf, front);
      EndsIncrease(keysOf, front);
      assert |keysOf(word[|word| - 1])| >= 1;
      assert LastEnd(before) < |Concat(keysOf, word)| - 1;
      forall i, j | 0 <= i < j < |word|
        ensures ends[i] < ends[j]
      {
        if j == |front| && i < |front| - 1 {
          assert before[i] < before[|front| - 1];
        }
      }
    }
  }

  /** The end index of character i, as a sum of keystroke counts. */
  lemma EndsSum(keysOf: char -> string, word: string, i: int)
    requires 0 <= i < |word|
    ensures Ends(keysOf, word)[i] == KeyTotal(keysOf, word[..i + 1]) - 1
  {
    EndsAt(keysOf, word, i);
    ConcatLength(keysOf, word[..i + 1]);
  }

  /** Each end index after the first adds its character's keystroke count to the one before. */
  lemma EndsAdvance(keysOf: char -> string, word: string, i: int)
    requires 0 < i < |word|
    ensures Ends(keysOf, word)[i] == Ends(keysOf, word)[i - 1] + |keysOf(word[i])|
  {
    EndsAt(keysOf, word, i);
    EndsAt(keysOf, word, i - 1);
    ConcatStep(keysOf, word, i);
  }

  /** The first end index is one less than the first character's keystroke count. */
  lemma EndsFirst(keysOf: char -> string, word: string)
    requires |word| > 0
    ensures Ends(keysOf, word)[0] == |keysOf(word[0])| - 1
  {
    EndsAt(keysOf, word, 0);
    assert word[..1] == [word[0]];
    ConcatSingle(keysOf, word[0]);
  }

  /** Every keystroke of a word is a keystroke of one of its characters. */
  lemma {:induction false} ConcatMember(keysOf: char -> string, word: string, n: int)
    requires 0 <= n < |Concat(keysOf, word)|
    ensures exists i | 0 <= i < |word| :: Concat(keysOf, word)[n] in keysOf(word[i])
    decreases |word|
  {
    var front, last := word[..|word| - 1], word[|word| - 1];
    var x := Concat(keysOf, word)[n];
    if n < |Concat(keysOf, front)| {
      ConcatMember(keysOf, front, n);
      var i :| 0 <= i < |front| && Concat(keysOf, front)[n] in keysOf(front[i]);
      assert front[i] == word[i];
    } else {
      assert x == keysOf(last)[n - |Concat(keysOf, front)|];
      assert x in keysOf(word[|word| - 1]);
    }
  }
}
