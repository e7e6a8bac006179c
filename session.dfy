/**
 * The application shell (the `App` component): which screen is shown and
 * which practice mode it runs, the correct-input, star and per-character
 * counters, and the mute and volume settings. Navigation and the sound
 * settings are plain choices of the next value; the counters are bumped by
 * the handler that every correct keystroke or fruit click reaches.
 */
module Session {
  import opened Options
  import opened Practice
  import Keyboard

  // ---------------------------------------------------------------------
  // Screens and navigation
  // ---------------------------------------------------------------------

  /** The screens of the application. */
  datatype Screen = Main | KeyboardMenu | KoreanMenu | Typing | Mouse | Progress

  /** The screen shown and the practice mode the typing screen runs. */
  datatype Nav = Nav(screen: Screen, mode: PracticeMode)

  /**
   * `goBack`: three tests of the screen the handler was created with, each
   * choosing the screen to show next; the last choice made wins.
   */
  function PreviousScreen(screen: Screen): (r: Screen)
    ensures r == Main || r == KeyboardMenu
    ensures r == screen <==> screen == Main
  {
    var afterFirst := if screen == Typing || screen == Mouse || screen == Progress then Main else screen;
    var afterSecond := if screen == KoreanMenu then KeyboardMenu else afterFirst;
    assert afterFirst == Main || afterFirst == screen;
    if screen == KeyboardMenu then Main else afterSecond
  }

  /** `handleSelectMode`: shows the chosen screen; choosing the typing screen there selects English. */
  function SelectMode(nav: Nav, selected: Screen): (r: Nav)
    ensures r.screen == selected
    ensures selected == Typing ==> r.mode == English
    ensures selected != Typing ==> r.mode == nav.mode
  {
    var mode := if selected == Typing then English else nav.mode;
    Nav(selected, mode)
  }

  /** `handleSelectPractice`: runs the chosen mode on the typing screen. */
  function SelectPractice(nav: Nav, mode: PracticeMode): (r: Nav)
    ensures r.screen == Typing && r.mode == mode
  {
    Nav(Typing, mode)
  }

  /** What the user can do on a screen: press Back, or one of its menu buttons. */
  datatype Action = Back | ChooseScreen(target: Screen) | ChoosePractice(practice: PracticeMode)

  /**
   * The buttons each screen offers: Back everywhere but the main menu; the
   * main menu leads to the keyboard menu, the mouse game and the report; the
   * keyboard menu to the Korean menu and to English typing; the Korean menu
   * to the two Korean modes.
   */
  predicate Offered(screen: Screen, a: Action)
  {
    match a
    case Back => screen != Main
    case ChooseScreen(t) =>
      || (screen == Main && (t == KeyboardMenu || t == Mouse || t == Progress))
      || (screen == KeyboardMenu && (t == KoreanMenu || t == Typing))
    case ChoosePractice(m) => screen == KoreanMenu && IsKoreanMode(m)
  }

  /** The navigation state after an action. */
  function Step(nav: Nav, a: Action): Nav
  {
    match a
    case Back => Nav(PreviousScreen(nav.screen), nav.mode)
    case ChooseScreen(t) => SelectMode(nav, t)
    case ChoosePractice(m) => SelectPractice(nav, m)
  }

  /**
   * Back leads to the main menu from every screen but the Korean menu, which
   * leads to the keyboard menu.
   */
  lemma BackTarget(screen: Screen)
    ensures PreviousScreen(screen) == (if screen == KoreanMenu then KeyboardMenu else Main)
  {
  }

  /** Back twice always reaches the main menu. */
  lemma BackTwiceIsMain(screen: Screen)
    ensures PreviousScreen(PreviousScreen(screen)) == Main
  {
  }

  /**
   * Every way onto the typing screen chooses its mode: the keyboard menu's
   * English button selects English, and the Korean menu selects the Korean
   * mode pressed. The mode left behind by an earlier session never survives.
   */
  lemma EnteringTypingChoosesMode(nav: Nav, a: Action)
    requires Offered(nav.screen, a) && Step(nav, a).screen == Typing
    ensures nav.screen == KeyboardMenu || nav.screen == KoreanMenu
    ensures nav.screen == KeyboardMenu ==> Step(nav, a).mode == English
    ensures nav.screen == KoreanMenu ==> a.ChoosePractice? && Step(nav, a).mode == a.practice && IsKoreanMode(a.practice)
  {
  }

  /**
   * Each menu button is undone by Back, except English typing, whose Back
   * leads straight to the main menu rather than to the keyboard menu.
   */
  lemma BackUndoesChoice(nav: Nav, a: Action)
    requires Offered(nav.screen, a) && a != Back
    ensures PreviousScreen(Step(nav, a).screen) == (if Step(nav, a).screen == Typing then Main else nav.screen)
  {
  }

  /** The screens reachable from the main menu in at most `n` offered actions. */
  ghost predicate ReachableIn(n: nat, screen: Screen)
  {
    screen == Main ||
    (n > 0 && exists from: Screen, a: Action | Offered(from, a) && ReachableIn(n - 1, from) :: Step(Nav(from, English), a).screen == screen)
  }

  /** Every screen is reachable from the main menu within three button presses. */
  lemma AllScreensReachable(screen: Screen)
    ensures ReachableIn(3, screen)
  {
    assert ReachableIn(0, Main);
    assert Step(Nav(Main, English), ChooseScreen(KeyboardMenu)).screen == KeyboardMenu;
    assert ReachableIn(1, KeyboardMenu);
    assert ReachableIn(1, Mouse) by {
      assert Step(Nav(Main, English), ChooseScreen(Mouse)).screen == Mouse;
    }
    assert ReachableIn(1, Progress) by {
      assert Step(Nav(Main, English), ChooseScreen(Progress)).screen == Progress;
    }
    assert ReachableIn(2, KoreanMenu) by {
      assert Offered(KeyboardMenu, ChooseScreen(KoreanMenu));
      assert Step(Nav(KeyboardMenu, English), ChooseScreen(KoreanMenu)).screen == KoreanMenu;
    }
    assert ReachableIn(2, Typing) by {
      assert Offered(KeyboardMenu, ChooseScreen(Typing));
      assert Step(Nav(KeyboardMenu, English), ChooseScreen(Typing)).screen == Typing;
    }
    assert ReachableIn(2, KeyboardMenu) by {
      assert ReachableIn(1, Main);
    }
    assert ReachableIn(2, Mouse) && ReachableIn(2, Progress) by {
      assert ReachableIn(1, Main);
    }
    assert ReachableIn(2, Main);
  }

  // ---------------------------------------------------------------------
  // Correct-input counters
  // ---------------------------------------------------------------------

  /** A star is earned on every tenth correct input. */
  const StarInterval: nat := 10

  /** The correct inputs so far, the stars earned and how often each character was typed correctly. */
  datatype Tally = Tally(correctInputs: nat, stars: nat, progress: map<string, nat>)

  /** The tally an application starts with. */
  const NoTally: Tally := Tally(0, 0, map[])

  /** `progressData[char] || 0`. */
  function TimesTyped(progress: map<string, nat>, ch: string): nat
  {
    if ch in progress then progress[ch] else 0
  }

  /** The character passed to the handler, when it is a non-empty string (JavaScript truthiness). */
  predicate HasChar(ch: Option<string>)
  {
    ch.Some? && ch.value != ""
  }

  /**
   * `handleCorrectInput`: one more correct input, a star when the new count
   * is a multiple of ten, and one more correct typing of the character, if
   * one is given (a fruit click gives none).
   */
  function AddCorrect(t: Tally, ch: Option<string>): Tally
  {
    var newCount := t.correctInputs + 1;
    var stars := if newCount > 0 && newCount % StarInterval == 0 then t.stars + 1 else t.stars;
    var progress := if HasChar(ch) then t.progress[ch.value := TimesTyped(t.progress, ch.value) + 1] else t.progress;
    Tally(newCount, stars, progress)
  }

  /**
   * One correct input raises the count by exactly one and the stars by one
   * exactly when the new count is a multiple of ten; the given character's
   * count rises by one and no other character's count changes.
   */
  lemma AddCorrectEffect(t: Tally, ch: Option<string>)
    ensures var r := AddCorrect(t, ch);
      && r.correctInputs == t.correctInputs + 1
      && (r.stars == t.stars + 1 <==> r.correctInputs % StarInterval == 0)
      && (r.stars == t.stars <==> r.correctInputs % StarInterval != 0)
      && (forall k :: TimesTyped(r.progress, k) == TimesTyped(t.progress, k) + (if HasChar(ch) && k == ch.value then 1 else 0))
      && r.progress.Keys == t.progress.Keys + (if HasChar(ch) then {ch.value} else {})
  {
  }

  /** The tally after a run of correct inputs from the start, one character (or none) per input. */
  function Tallied(inputs: seq<Option<string>>): Tally
  {
    if inputs == [] then NoTally else AddCorrect(Tallied(inputs[..|inputs| - 1]), inputs[|inputs| - 1])
  }

  /** How many of the inputs carry the character `ch`. */
  function Occurrences(inputs: seq<Option<string>>, ch: string): nat
  {
    if inputs == [] then 0
    else Occurrences(inputs[..|inputs| - 1], ch) + (if inputs[|inputs| - 1] == Some(ch) then 1 else 0)
  }

  /**
   * After any run of correct inputs from the start: the count is the number
   * of inputs, the stars are one per full ten of them, each non-empty
   * character has been counted once per input carrying it, and the empty
   * string is never counted.
   */
  lemma {:induction false} TalliedCounts(inputs: seq<Option<string>>)
    ensures Tallied(inputs).correctInputs == |inputs|
    ensures Tallied(inputs).stars == |inputs| / StarInterval
    ensures forall k | k != "" :: TimesTyped(Tallied(inputs).progress, k) == Occurrences(inputs, k)
    ensures "" !in Tallied(inputs).progress
  {
    if inputs != [] {
      var front, last := inputs[..|inputs| - 1], inputs[|inputs| - 1];
      TalliedCounts(front);
      AddCorrectEffect(Tallied(front), last);
      StarStep(|front|);
    }
  }

  /** Stars of a count one higher: one more exactly when the new count is a multiple of ten. */
  lemma StarStep(n: nat)
    ensures (n + 1) / StarInterval == n / StarInterval + (if (n + 1) % StarInterval == 0 then 1 else 0)
  {
  }

  // ---------------------------------------------------------------------
  // Sound settings
  // ---------------------------------------------------------------------

  /** Whether speech is muted, and the volume level chosen on the five volume bars. */
  datatype Sound = Sound(muted: bool, volume: int)

  /** `handleMuteToggle`: flips muting and keeps the volume. */
  function MuteToggled(s: Sound): (r: Sound)
    ensures r.muted != s.muted && r.volume == s.volume
  {
    Sound(!s.muted, s.volume)
  }

  /** `handleVolumeChange`: a chosen volume level always unmutes. */
  function VolumeChanged(s: Sound, level: int): (r: Sound)
    ensures !r.muted && r.volume == level
  {
    Sound(false, level)
  }

  /**
   * Toggling mute twice restores the settings, and choosing a volume gives
   * the same settings whatever the muting was before, so choosing it again
   * changes nothing.
   */
  lemma SoundSettingsLaws(s: Sound, level: int)
    ensures MuteToggled(MuteToggled(s)) == s
    ensures VolumeChanged(s, level) == VolumeChanged(MuteToggled(s), level)
    ensures VolumeChanged(VolumeChanged(s, level), level) == VolumeChanged(s, level)
  {
  }

  // ---------------------------------------------------------------------
  // The application state
  // ---------------------------------------------------------------------

  /** The state of the `App` component. */
  class App {
    var screen: Screen
    var practiceMode: PracticeMode
    var stars: nat
    var correctInputs: nat
    var progressData: map<string, nat>
    var isMuted: bool
    var volumeLevel: int

    /** The counters as a tally. */
    function Counters(): Tally
      reads this
    {
      Tally(correctInputs, stars, progressData)
    }

    /** The stars are one per full ten correct inputs, and no empty character is ever counted. */
    ghost predicate Valid()
      reads this
    {
      stars == correctInputs / StarInterval && "" !in progressData
    }

    /** The main menu, English selected, nothing counted, sound on at level 2. */
    constructor ()
      ensures Valid()
      ensures screen == Main && practiceMode == English
      ensures Counters() == NoTally
      ensures !isMuted && volumeLevel == 2
    {
      screen := Main;
      practiceMode := English;
      stars := 0;
      correctInputs := 0;
      progressData := map[];
      isMuted := false;
      volumeLevel := 2;
    }

    /** `handleCorrectInput`, for a correct keystroke (its character) or a fruit click (no character). */
    method HandleCorrectInput(ch: Option<string>)
      requires Valid()
      modifies this`correctInputs, this`stars, this`progressData
      ensures Valid()
      ensures Counters() == AddCorrect(old(Counters()), ch)
    {
      var newCount := correctInputs + 1;
      correctInputs := newCount;
      if newCount > 0 && newCount % StarInterval == 0 {
        stars := stars + 1;
      }
      if ch.Some? && ch.value != "" {
        var key := ch.value;
        progressData := progressData[key := (if key in progressData then progressData[key] else 0) + 1];
      }
      StarStep(old(correctInputs));
    }

    /** `goBack`. */
    method GoBack()
      modifies this`screen
      ensures screen == PreviousScreen(old(screen))
    {
      if screen == Typing || screen == Mouse || screen == Progress {
        screen := Main;
      } else if screen == KoreanMenu {
        screen := KeyboardMenu;
      } else if screen == KeyboardMenu {
        screen := Main;
      }
    }

    /** `handleSelectMode`. */
    method HandleSelectMode(selected: Screen)
      modifies this`screen, this`practiceMode
      ensures Nav(screen, practiceMode) == SelectMode(old(Nav(screen, practiceMode)), selected)
    {
      if selected == Typing {
        practiceMode := English;
      }
      screen := selected;
    }

    /** `handleSelectPractice`. */
    method HandleSelectPractice(mode: PracticeMode)
      modifies this`screen, this`practiceMode
      ensures Nav(screen, practiceMode) == SelectPractice(old(Nav(screen, practiceMode)), mode)
    {
      practiceMode := mode;
      screen := Typing;
    }

    /** `handleMuteToggle`. */
    method HandleMuteToggle()
      modifies this`isMuted
      ensures Sound(isMuted, volumeLevel) == MuteToggled(old(Sound(isMuted, volumeLevel)))
    {
      isMuted := !isMuted;
    }

    /** `handleVolumeChange`. */
    method HandleVolumeChange(level: int)
      modifies this`isMuted, this`volumeLevel
      ensures Sound(isMuted, volumeLevel) == VolumeChanged(old(Sound(isMuted, volumeLevel)), level)
    {
      if isMuted {
        isMuted := false;
      }
      volumeLevel := level;
    }

    /**
     * A key-down event on the typing screen: the practice screen handles it
     * and, for a correct key, reports the character typed, which is counted.
     */
    method OnTypingKey(practice: TypingPractice, e: Keyboard.KeyEvent, cheer: nat, support: nat)
      returns (press: Keyboard.Press)
      requires Valid() && practice.Valid()
      requires cheer < |CheeringMessages| && support < |SupportMessages|
      modifies this`correctInputs, this`stars, this`progressData
      modifies practice`typedCount, practice`feedback, practice`message
      ensures Valid() && practice.Valid()
      ensures press == Keyboard.Classify(old(practice.CurrentTarget()), e)
      ensures press == Keyboard.Hit ==>
        old(practice.NextChar()).Some? &&
        Counters() == AddCorrect(old(Counters()), Some([old(practice.NextChar()).value]))
      ensures press != Keyboard.Hit ==> Counters() == old(Counters())
      ensures press == Keyboard.Ignored ==>
        && practice.typedCount == old(practice.typedCount)
        && practice.feedback == old(practice.feedback)
        && practice.message == old(practice.message)
      ensures press == Keyboard.Hit ==>
        && practice.typedCount == old(practice.typedCount) + 1
        && practice.message == (if practice.Completed() then CheeringMessages[cheer] else InitialMessage)
        && practice.feedback ==
          (if practice.mode == KoreanWord then AfterHit(old(practice.feedback), practice.charEndIndices, old(practice.typedCount))
           else old(practice.feedback))
      ensures press == Keyboard.Miss ==>
        && practice.typedCount == old(practice.typedCount)
        && practice.message == SupportMessages[support]
        && practice.feedback ==
          (if practice.mode == KoreanWord
           then AfterMiss(old(practice.feedback), practice.charEndIndices, practice.typedCount,
                          Keyboard.PressedLabel(LayoutFor(practice.mode), e))
           else old(practice.feedback))
    {
      var typed: Option<char>;
      press, typed := practice.HandleKeyPress(e, cheer, support);
      if typed.Some? {
        HandleCorrectInput(Some([typed.value]));
      }
    }
  }
}
