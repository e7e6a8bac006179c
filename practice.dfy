/**
 * The keyboard typing practice screen (the `TypingPractice` component): the
 * word queue, the expected keystroke sequence of the current word, the
 * cursor into it, the per-syllable feedback marks and the message line, and
 * the transitions made by a key-down event and by loading the next word.
 */
module Practice {
  import opened Options
  import Hangul
  import opened Keyboard

  /** Consonant/vowel drill, Korean word practice, or English words. */
  datatype PracticeMode = KoreanCv | KoreanWord | English

  /** `mode.startsWith('korean')`. */
  predicate IsKoreanMode(mode: PracticeMode)
  {
    mode == KoreanCv || mode == KoreanWord
  }

  /** The layout drawn and searched in a mode. */
  function LayoutFor(mode: PracticeMode): Layout
  {
    if IsKoreanMode(mode) then Korean101Layout else English101Layout
  }

  /** An item of a vocabulary: a Korean word, or an English word with its Korean gloss. */
  datatype WordEntry = KoreanEntry(word: string) | EnglishEntry(en: string, ko: string)

  /** The Korean vocabulary (index.tsx:7). */
  const KoreanWords: seq<WordEntry> := [
    KoreanEntry("사과"),
    KoreanEntry("바나나"),
    KoreanEntry("딸기"),
    KoreanEntry("포도"),
    KoreanEntry("수박"),
    KoreanEntry("오렌지"),
    KoreanEntry("엄마"),
    KoreanEntry("아빠"),
    KoreanEntry("하늘"),
    KoreanEntry("바다"),
    KoreanEntry("코끼리"),
    KoreanEntry("호랑이")
  ]

  /** The English vocabulary with Korean glosses (index.tsx:8-34). */
  const EnglishWords: seq<WordEntry> := [
    EnglishEntry("run", "달리다"),
    EnglishEntry("walk", "걷다"),
    EnglishEntry("eat", "먹다"),
    EnglishEntry("drink", "마시다"),
    EnglishEntry("sleep", "자다"),
    EnglishEntry("read", "읽다"),
    EnglishEntry("write", "쓰다"),
    EnglishEntry("sing", "노래하다"),
    EnglishEntry("dance", "춤추다"),
    EnglishEntry("swim", "수영하다"),
    EnglishEntry("jump", "점프하다"),
    EnglishEntry("fly", "날다"),
    EnglishEntry("play", "놀다"),
    EnglishEntry("study", "공부하다"),
    EnglishEntry("work", "일하다"),
    EnglishEntry("think", "생각하다"),
    EnglishEntry("see", "보다"),
    EnglishEntry("hear", "듣다"),
    EnglishEntry("speak", "말하다"),
    EnglishEntry("make", "만들다"),
    EnglishEntry("give", "주다"),
    EnglishEntry("take", "가지다"),
    EnglishEntry("open", "열다"),
    EnglishEntry("close", "닫다"),
    EnglishEntry("help", "돕다")
  ]

  /** Shown when a word is finished (index.tsx:201-210). */
  const CheeringMessages: seq<string> := [
    "정말 잘하고 있어!",
    "최고야!",
    "와, 대단한걸!",
    "거의 다 왔어!",
    "지금처럼만 하면 돼!",
    "리듬을 타봐!",
    "신난다!",
    "정확해!"
  ]

  /** Shown after a wrong key (index.tsx:211-218). */
  const SupportMessages: seq<string> := [
    "괜찮아, 다시 해보자!",
    "실수는 배움의 과정이야!",
    "조금만 더 집중해볼까?",
    "거의 맞았어!",
    "할 수 있어!",
    "천천히 해봐, 괜찮아."
  ]

  /** The message shown while a word is typed without mistakes (index.tsx:219). */
  const InitialMessage: string := "글자를 힘차게 눌러보자!"

  /** The vocabulary a mode draws from: English words in English mode, Korean words otherwise. */
  function SourceList(mode: PracticeMode): seq<WordEntry>
  {
    if mode == English then EnglishWords else KoreanWords
  }

  /** The kind of entry a mode works with. */
  predicate Fits(mode: PracticeMode, w: WordEntry)
  {
    if mode == English then w.EnglishEntry? else w.KoreanEntry?
  }

  /** Every vocabulary is non-empty and holds entries of its mode's kind. */
  lemma SourceListFits(mode: PracticeMode)
    ensures |SourceList(mode)| > 0
    ensures forall w | w in SourceList(mode) :: Fits(mode, w)
  {
    if mode == English {
      assert forall i | 0 <= i < |EnglishWords| :: EnglishWords[i].EnglishEntry?;
    } else {
      assert forall i | 0 <= i < |KoreanWords| :: KoreanWords[i].KoreanEntry?;
    }
  }

  // ---------------------------------------------------------------------
  // Searching the end-index table
  // ---------------------------------------------------------------------

  /**
   * `ends.findIndex(endIndex => typed <= endIndex)`: the first character
   * whose last keystroke is not yet behind the cursor, or -1.
   */
  function FindIndex(ends: seq<int>, typed: int): (r: int)
    ensures -1 <= r < |ends|
    ensures r == -1 <==> forall i | 0 <= i < |ends| :: ends[i] < typed
    ensures r != -1 ==> typed <= ends[r] && forall j | 0 <= j < r :: ends[j] < typed
  {
    if ends == [] then -1
    else if typed <= ends[0] then 0
    else
      var r := FindIndex(ends[1..], typed);
      if r == -1 then -1 else r + 1
  }

  /** `ends.indexOf(x)`: the first position holding x, or -1. */
  function IndexOf(ends: seq<int>, x: int): (r: int)
    ensures -1 <= r < |ends|
    ensures r == -1 <==> x !in ends
    ensures r != -1 ==> ends[r] == x && forall j | 0 <= j < r :: ends[j] != x
  {
    if ends == [] then -1
    else if ends[0] == x then 0
    else
      var r := IndexOf(ends[1..], x);
      if r == -1 then -1 else r + 1
  }

  ghost predicate StrictlyIncreasing(ends: seq<int>)
  {
    forall i, j | 0 <= i < j < |ends| :: ends[i] < ends[j]
  }

  /**
   * In a word's end-index table, the character found for a cursor inside the
   * word's keystroke sequence is the one that keystroke belongs to: the
   * keystrokes of the characters before it end before the cursor and its own
   * keystrokes reach it.
   */
  lemma CurrentCharOwnsCursor(word: string, typed: int)
    requires 0 <= typed < |Hangul.Decompose(word)|
    ensures var ci := FindIndex(Hangul.EndIndices(word), typed);
      0 <= ci < |word| &&
      |Hangul.Decompose(word[..ci])| <= typed < |Hangul.Decompose(word[..ci + 1])|
  {
    var ends := Hangul.EndIndices(word);
    Hangul.EndIndicesProperties(word);
    assert |word| > 0;
    var ci := FindIndex(ends, typed);
    assert ci != -1 by {
      assert ends[|word| - 1] == |Hangul.Decompose(word)| - 1;
    }
    Hangul.EndIndexAt(word, ci);
    if ci > 0 {
      var before := ci - 1;
      Hangul.EndIndexAt(word, before);
      assert before + 1 == ci;
      assert ends[before] < typed;
    }
  }

  /**
   * Once the cursor's character is found, `indexOf(typed)` finds that same
   * character exactly when the cursor is on its last keystroke, and nothing
   * otherwise.
   */
  lemma CompletedIsCurrent(ends: seq<int>, typed: int)
    requires StrictlyIncreasing(ends) && FindIndex(ends, typed) != -1
    ensures var ci := FindIndex(ends, typed);
      IndexOf(ends, typed) == (if ends[ci] == typed then ci else -1)
  {
  }

  // ---------------------------------------------------------------------
  // Per-character feedback
  // ---------------------------------------------------------------------

  /** The mark on one character of the word. */
  datatype Feedback = Correct | Incorrect(key: string)

  /**
   * The first feedback update of a correct keystroke at cursor `typed`: an
   * "incorrect" mark on the cursor's character is removed.
   */
  function ClearIncorrect(fb: map<int, Feedback>, ends: seq<int>, typed: int): map<int, Feedback>
  {
    var ci := FindIndex(ends, typed);
    if ci != -1 && ci in fb && fb[ci].Incorrect? then fb - {ci} else fb
  }

  /**
   * The second feedback update, once the cursor has advanced to `newCount`:
   * the character whose last keystroke was just typed is marked correct.
   */
  function MarkCompleted(fb: map<int, Feedback>, ends: seq<int>, newCount: int): map<int, Feedback>
  {
    var done := IndexOf(ends, newCount - 1);
    if done != -1 then fb[done := Correct] else fb
  }

  /** Both feedback updates of a correct keystroke at cursor `typed`. */
  function AfterHit(fb: map<int, Feedback>, ends: seq<int>, typed: int): map<int, Feedback>
  {
    MarkCompleted(ClearIncorrect(fb, ends, typed), ends, typed + 1)
  }

  /** The feedback after a wrong keystroke: the cursor's character is marked with the key pressed. */
  function AfterMiss(fb: map<int, Feedback>, ends: seq<int>, typed: int, pressed: string): map<int, Feedback>
  {
    var ci := FindIndex(ends, typed);
    if ci != -1 then fb[ci := Incorrect(pressed)] else fb
  }

  /**
   * A correct keystroke changes the mark of the cursor's character only: it
   * becomes "correct" when the keystroke was that character's last, and
   * otherwise an "incorrect" mark on it is dropped.
   */
  lemma AfterHitEffect(fb: map<int, Feedback>, ends: seq<int>, typed: int)
    requires StrictlyIncreasing(ends) && FindIndex(ends, typed) != -1
    ensures var ci := FindIndex(ends, typed);
      var r := AfterHit(fb, ends, typed);
      && (forall i | i != ci :: (i in r <==> i in fb) && (i in r ==> r[i] == fb[i]))
      && (typed == ends[ci] ==> ci in r && r[ci] == Correct)
      && (typed != ends[ci] ==> (ci in r <==> ci in fb && fb[ci] == Correct) && (ci in r ==> r[ci] == Correct))
  {
    CompletedIsCurrent(ends, typed);
  }

  /** A wrong keystroke marks the cursor's character with the key pressed and changes nothing else. */
  lemma AfterMissEffect(fb: map<int, Feedback>, ends: seq<int>, typed: int, pressed: string)
    requires FindIndex(ends, typed) != -1
    ensures var ci := FindIndex(ends, typed);
      var r := AfterMiss(fb, ends, typed, pressed);
      && ci in r && r[ci] == Incorrect(pressed)
      && (forall i | i != ci :: (i in r <==> i in fb) && (i in r ==> r[i] == fb[i]))
  {
  }

  /**
   * The feedback agrees with the cursor: exactly the characters whose
   * keystrokes are all behind the cursor are marked correct, and only the
   * cursor's character can be marked incorrect.
   */
  ghost predicate FeedbackAgrees(fb: map<int, Feedback>, ends: seq<int>, typed: int)
  {
    && (forall i | i in fb :: 0 <= i < |ends|)
    && (forall i | 0 <= i < |ends| :: (i in fb && fb[i] == Correct) <==> ends[i] < typed)
    && (forall i | i in fb && fb[i].Incorrect? :: i == FindIndex(ends, typed))
  }

  /** A freshly loaded word has no marks, which agrees with a cursor at 0. */
  lemma FreshFeedbackAgrees(word: string)
    ensures FeedbackAgrees(map[], Hangul.EndIndices(word), 0)
  {
    var ends := Hangul.EndIndices(word);
    Hangul.EndIndicesProperties(word);
    forall i | 0 <= i < |ends|
      ensures 0 <= ends[i]
    {
      Hangul.DecomposeLength(word[..i + 1]);
    }
  }

  /** A correct keystroke inside the word keeps the feedback in agreement with the advanced cursor. */
  lemma AfterHitAgrees(fb: map<int, Feedback>, ends: seq<int>, typed: int)
    requires StrictlyIncreasing(ends) && FeedbackAgrees(fb, ends, typed)
    requires |ends| > 0 && 0 <= typed <= ends[|ends| - 1]
    ensures FeedbackAgrees(AfterHit(fb, ends, typed), ends, typed + 1)
  {
    var ci := FindIndex(ends, typed);
    var r := AfterHit(fb, ends, typed);
    AfterHitEffect(fb, ends, typed);
    forall i | 0 <= i < |ends|
      ensures (i in r && r[i] == Correct) <==> ends[i] < typed + 1
    {
      if i < ci {
        assert ends[i] < typed;
      } else if i > ci {
        assert ends[ci] < ends[i];
      }
    }
    forall i | i in r
      ensures !r[i].Incorrect?
    {
      if i != ci {
        assert i in fb;
      }
    }
  }

  /** A wrong keystroke inside the word keeps the feedback in agreement with the unmoved cursor. */
  lemma AfterMissAgrees(fb: map<int, Feedback>, ends: seq<int>, typed: int, pressed: string)
    requires FeedbackAgrees(fb, ends, typed)
    requires |ends| > 0 && typed <= ends[|ends| - 1]
    ensures FeedbackAgrees(AfterMiss(fb, ends, typed, pressed), ends, typed)
  {
    AfterMissEffect(fb, ends, typed, pressed);
  }

  // ---------------------------------------------------------------------
  // The state of the current word
  // ---------------------------------------------------------------------

  /**
   * The current word's state is consistent: the target sequence is the
   * word's keystrokes (its Hangul decomposition in the Korean modes, its
   * letters in English mode) and the cursor is within it. In word practice
   * the end-index table belongs to the word and the feedback agrees with the
   * cursor; the other modes keep no feedback.
   */
  ghost predicate WordState(mode: PracticeMode, word: string, target: string, ends: seq<int>,
                            fb: map<int, Feedback>, typed: int)
  {
    && 0 <= typed <= |target|
    && (IsKoreanMode(mode) ==> target == Hangul.Decompose(word))
    && (mode == English ==> target == word)
    && (mode == KoreanWord ==> ends == Hangul.EndIndices(word) && FeedbackAgrees(fb, ends, typed))
    && (mode != KoreanWord ==> fb == map[])
  }

  /** The empty word, before any word is loaded. */
  lemma EmptyWordState(mode: PracticeMode)
    ensures WordState(mode, "", "", [], map[], 0)
  {
    assert Hangul.Decompose("") == "";
  }

  /** A freshly loaded word, with the cursor at its start and no marks. */
  lemma FreshWordState(mode: PracticeMode, word: string, ends: seq<int>)
    requires mode == KoreanWord ==> ends == Hangul.EndIndices(word)
    ensures WordState(mode, word, if IsKoreanMode(mode) then Hangul.Decompose(word) else word, ends, map[], 0)
  {
    if mode == KoreanWord {
      FreshFeedbackAgrees(word);
    }
  }

  /**
   * A correct keystroke inside the word: the cursor advances by one and, in
   * word practice, the feedback takes both updates of a correct keystroke.
   */
  lemma HitKeepsWordState(mode: PracticeMode, word: string, target: string, ends: seq<int>,
                          fb: map<int, Feedback>, typed: int, fb': map<int, Feedback>, typed': int)
    requires WordState(mode, word, target, ends, fb, typed) && typed < |target|
    requires fb' == (if mode == KoreanWord then AfterHit(fb, ends, typed) else fb) && typed' == typed + 1
    ensures WordState(mode, word, target, ends, fb', typed')
  {
    if mode == KoreanWord {
      CursorInsideWord(word, typed);
      Hangul.EndIndicesIncrease(word);
      AfterHitAgrees(fb, ends, typed);
    }
  }

  /** A wrong keystroke inside the word: in word practice the cursor's character is marked. */
  lemma MissKeepsWordState(mode: PracticeMode, word: string, target: string, ends: seq<int>,
                           fb: map<int, Feedback>, typed: int, pressed: string, fb': map<int, Feedback>)
    requires WordState(mode, word, target, ends, fb, typed) && typed < |target|
    requires fb' == (if mode == KoreanWord then AfterMiss(fb, ends, typed, pressed) else fb)
    ensures WordState(mode, word, target, ends, fb', typed)
  {
    if mode == KoreanWord {
      CursorInsideWord(word, typed);
      AfterMissAgrees(fb, ends, typed, pressed);
    }
  }

  /** A cursor before the end of a word's keystrokes is before its last end index. */
  lemma CursorInsideWord(word: string, typed: int)
    requires 0 <= typed < |Hangul.Decompose(word)|
    ensures |word| > 0 && typed <= Hangul.EndIndices(word)[|word| - 1]
  {
    Hangul.EndIndicesProperties(word);
    assert |word| > 0;
  }

  /**
   * The word queue is consistent: the index is within the list, and a filled
   * list is a reordering of the vocabulary.
   */
  ghost predicate QueueState(vocabulary: seq<WordEntry>, list: seq<WordEntry>, index: int)
  {
    0 <= index <= |list| && (list != [] ==> multiset(list) == multiset(vocabulary))
  }

  // ---------------------------------------------------------------------
  // The practice screen
  // ---------------------------------------------------------------------

  /** A screen with nothing loaded yet and a usable vocabulary is consistent. */
  lemma StartsValid(p: TypingPractice)
    requires |p.vocabulary| > 0 && forall w | w in p.vocabulary :: Fits(p.mode, w)
    requires p.displayWord == "" && p.displayTranslation == "" && p.targetSequence == ""
    requires p.typedCount == 0 && p.charEndIndices == [] && p.feedback == map[]
    requires p.queue == [] && p.queueIndex == 0
    ensures p.Valid()
  {
    EmptyWordState(p.mode);
  }

  /**
   * The state of one practice screen. The mode is fixed for the screen's
   * lifetime; `queue` and `queueIndex` are the word queue kept across words.
   */
  class TypingPractice {
    const mode: PracticeMode
    /**
     * The mode's vocabulary, `SourceList(mode)`, which every refill of the
     * queue reorders. It is set once, by the constructor.
     */
    ghost const vocabulary: seq<WordEntry>
    var displayWord: string
    var displayTranslation: string
    /** The keystrokes expected for the current word, one character each. */
    var targetSequence: string
    /** How many of them have been typed. */
    var typedCount: nat
    var charEndIndices: seq<int>
    var feedback: map<int, Feedback>
    var message: string
    var queue: seq<WordEntry>
    var queueIndex: nat

    ghost predicate Valid()
      reads this
    {
      && WordState(mode, displayWord, targetSequence, charEndIndices, feedback, typedCount)
      && QueueValid()
      && ShowsQueued()
    }

    /** The queue is consistent with the vocabulary, a non-empty list of entries of the mode's kind. */
    ghost predicate QueueValid()
      reads this`queue, this`queueIndex
    {
      && QueueState(vocabulary, queue, queueIndex)
      && |vocabulary| > 0 && (forall w | w in vocabulary :: Fits(mode, w))
    }

    /**
     * The word shown is the entry last taken from the queue, or nothing
     * before the first word is loaded.
     */
    ghost predicate ShowsQueued()
      reads this`queue, this`queueIndex, this`displayWord, this`displayTranslation, this`targetSequence
    {
      if queueIndex == 0 then displayWord == "" && displayTranslation == "" && targetSequence == ""
      else 1 <= queueIndex <= |queue| && Shows(queue[queueIndex - 1])
    }

    /** `targetSequence[typedCount]`, absent once the word is complete. */
    function NextChar(): (c: Option<char>)
      reads this
      ensures c.Some? <==> typedCount < |targetSequence|
    {
      if typedCount < |targetSequence| then Some(targetSequence[typedCount]) else None
    }

    /** The key to press next, and whether with Shift. */
    function CurrentTarget(): (t: Option<Target>)
      reads this
      ensures NextChar().None? ==> t.None?
      ensures t.Some? ==> t.value.key in Flatten(LayoutFor(mode)) && Types(t.value.key, [NextChar().value])
    {
      ResolveTarget(LayoutFor(mode), NextChar())
    }

    /** All keystrokes of the word are typed; the next word is due. */
    predicate Completed()
      reads this
    {
      typedCount == |targetSequence|
    }

    /**
     * The state a screen starts in, before its first word is loaded:
     * everything empty, the cursor at 0 and the queue empty, so that the
     * first load fills the queue from the mode's vocabulary.
     */
    constructor (mode: PracticeMode)
      ensures this.mode == mode && vocabulary == SourceList(mode) && Valid()
      ensures displayWord == "" && displayTranslation == "" && targetSequence == ""
      ensures typedCount == 0 && charEndIndices == [] && feedback == map[]
      ensures message == InitialMessage && queue == [] && queueIndex == 0
      ensures Completed() && CurrentTarget() == None
    {
      this.mode := mode;
      vocabulary := SourceList(mode);
      displayWord := "";
      displayTranslation := "";
      targetSequence := "";
      typedCount := 0;
      charEndIndices := [];
      feedback := map[];
      message := InitialMessage;
      queue := [];
      queueIndex := 0;
      new;
      SourceListFits(mode);
      StartsValid(this);
    }

    /**
     * Loads the next word: resets the message, the cursor, the translation
     * and the marks, takes the queue's next entry and shows it. `shuffled` is
     * the reordering of the mode's vocabulary that refills the queue when it
     * is used up; it is ignored otherwise.
     */
    method GenerateNewWord(shuffled: seq<WordEntry>)
      requires Valid()
      requires multiset(shuffled) == multiset(vocabulary)
      modifies this
      ensures Valid()
      ensures message == InitialMessage && typedCount == 0 && feedback == map[]
      ensures old(queueIndex) >= |old(queue)| ==> queue == shuffled && queueIndex == 1
      ensures old(queueIndex) < |old(queue)| ==> queue == old(queue) && queueIndex == old(queueIndex) + 1
      ensures queueIndex >= 1 && queue[queueIndex - 1] in vocabulary && Shows(queue[queueIndex - 1])
      ensures charEndIndices == (if mode == KoreanWord then Hangul.EndIndices(displayWord) else old(charEndIndices))
    {
      message := InitialMessage;
      typedCount := 0;
      displayTranslation := "";
      feedback := map[];
      var entry := NextEntry(shuffled);
      ShowWord(entry);
      assert QueueValid() && ShowsQueued();
    }

    /**
     * The word shown and its keystrokes are those of `entry`: a Korean word
     * without translation and decomposed into jamo, or an English word with
     * its Korean gloss and typed letter by letter.
     */
    ghost predicate Shows(entry: WordEntry)
      reads this`displayWord, this`displayTranslation, this`targetSequence
    {
      && Fits(mode, entry)
      && (entry.KoreanEntry? ==> displayWord == entry.word && displayTranslation == "")
      && (entry.EnglishEntry? ==> displayWord == entry.en && displayTranslation == entry.ko)
      && targetSequence == (if IsKoreanMode(mode) then Hangul.Decompose(displayWord) else displayWord)
    }

    /**
     * The queue step of loading a word: refills the queue with `shuffled`
     * when it is used up, then takes its next entry, which is an entry of
     * the mode's vocabulary.
     */
    method NextEntry(shuffled: seq<WordEntry>) returns (entry: WordEntry)
      requires QueueValid()
      requires multiset(shuffled) == multiset(vocabulary)
      modifies this`queue, this`queueIndex
      ensures QueueValid()
      ensures old(queueIndex) >= |old(queue)| ==> queue == shuffled && queueIndex == 1
      ensures old(queueIndex) < |old(queue)| ==> queue == old(queue) && queueIndex == old(queueIndex) + 1
      ensures queueIndex >= 1 && entry == queue[queueIndex - 1] && entry in vocabulary
    {
      if queueIndex >= |queue| {
        queue := shuffled;
        queueIndex := 0;
      }
      entry := queue[queueIndex];
      assert entry in multiset(queue);
      queueIndex := queueIndex + 1;
    }

    /**
     * The display step of loading a word: shows `entry` and computes its
     * keystrokes and, in word practice, its end-index table, for a cursor
     * already at 0 with no marks.
     */
    method ShowWord(entry: WordEntry)
      requires Fits(mode, entry) && typedCount == 0 && feedback == map[] && displayTranslation == ""
      modifies this`displayWord, this`displayTranslation, this`targetSequence, this`charEndIndices
      ensures Shows(entry)
      ensures WordState(mode, displayWord, targetSequence, charEndIndices, feedback, typedCount)
      ensures charEndIndices == (if mode == KoreanWord then Hangul.EndIndices(displayWord) else old(charEndIndices))
    {
      if IsKoreanMode(mode) {
        var newWord := entry.word;
        displayWord := newWord;
        targetSequence := Hangul.DecomposeHangul(newWord);
        if mode == KoreanWord {
          charEndIndices := Hangul.CharEndIndices(newWord);
        }
      } else {
        displayWord := entry.en;
        displayTranslation := entry.ko;
        targetSequence := entry.en;
      }
      FreshWordState(mode, displayWord, charEndIndices);
    }

    /**
     * One key-down event. `cheer` and `support` pick the message shown on
     * completing the word and after a wrong key. Returns how the event was
     * classified and, for a correct key, the character reported as typed.
     */
    method HandleKeyPress(e: KeyEvent, cheer: nat, support: nat) returns (press: Press, typed: Option<char>)
      requires Valid()
      requires cheer < |CheeringMessages| && support < |SupportMessages|
      modifies this`typedCount, this`feedback, this`message
      ensures Valid()
      ensures press == Classify(old(CurrentTarget()), e)
      ensures press == Ignored ==>
        typed == None && typedCount == old(typedCount) && feedback == old(feedback) && message == old(message)
      ensures press == Hit ==>
        && typed == old(NextChar()) && typed.Some?
        && typedCount == old(typedCount) + 1
        && message == (if Completed() then CheeringMessages[cheer] else InitialMessage)
        && feedback == (if mode == KoreanWord then AfterHit(old(feedback), charEndIndices, old(typedCount)) else old(feedback))
      ensures press == Miss ==>
        && typed == None && typedCount == old(typedCount)
        && message == SupportMessages[support]
        && feedback ==
          (if mode == KoreanWord then AfterMiss(old(feedback), charEndIndices, typedCount, PressedLabel(LayoutFor(mode), e))
           else old(feedback))
    {
      var target := CurrentTarget();
      press := Classify(target, e);
      typed := None;
      if press == Hit {
        var c := AcceptKey(cheer);
        typed := Some(c);
      } else if press == Miss {
        RejectKey(e, support);
      }
    }

    /** The correct-key branch of a key-down event, at a cursor inside the word. */
    method AcceptKey(cheer: nat) returns (typed: char)
      requires WordState(mode, displayWord, targetSequence, charEndIndices, feedback, typedCount)
      requires typedCount < |targetSequence| && cheer < |CheeringMessages|
      modifies this`typedCount, this`feedback, this`message
      ensures WordState(mode, displayWord, targetSequence, charEndIndices, feedback, typedCount)
      ensures typed == old(targetSequence[typedCount])
      ensures typedCount == old(typedCount) + 1
      ensures message == (if Completed() then CheeringMessages[cheer] else InitialMessage)
      ensures feedback == (if mode == KoreanWord then AfterHit(old(feedback), charEndIndices, old(typedCount)) else old(feedback))
    {
      ghost var fb' := if mode == KoreanWord then AfterHit(feedback, charEndIndices, typedCount) else feedback;
      HitKeepsWordState(mode, displayWord, targetSequence, charEndIndices, feedback, typedCount, fb', typedCount + 1);
      message := InitialMessage;
      if mode == KoreanWord {
        feedback := ClearIncorrect(feedback, charEndIndices, typedCount);
      }
      typed := targetSequence[typedCount];
      var newTypedCount := typedCount + 1;
      typedCount := newTypedCount;
      if mode == KoreanWord {
        feedback := MarkCompleted(feedback, charEndIndices, newTypedCount);
      }
      if newTypedCount == |targetSequence| {
        message := CheeringMessages[cheer];
      }
      assert feedback == fb';
    }

    /** The wrong-key branch of a key-down event, at a cursor inside the word. */
    method RejectKey(e: KeyEvent, support: nat)
      requires WordState(mode, displayWord, targetSequence, charEndIndices, feedback, typedCount)
      requires typedCount < |targetSequence| && support < |SupportMessages|
      modifies this`feedback, this`message
      ensures WordState(mode, displayWord, targetSequence, charEndIndices, feedback, typedCount)
      ensures message == SupportMessages[support]
      ensures feedback ==
        (if mode == KoreanWord then AfterMiss(old(feedback), charEndIndices, typedCount, PressedLabel(LayoutFor(mode), e))
         else old(feedback))
    {
      ghost var fb := feedback;
      var incorrectChar := PressedLabel(LayoutFor(mode), e);
      message := SupportMessages[support];
      if mode == KoreanWord {
        feedback := AfterMiss(feedback, charEndIndices, typedCount, incorrectChar);
      }
      MissKeepsWordState(mode, displayWord, targetSequence, charEndIndices, fb, typedCount, incorrectChar, feedback);
    }
  }
}
