/**
 * The two on-screen 101-key layouts, the search for the key that types the
 * next expected character (index.tsx:313-324), and the classification of one
 * key-down event against it (index.tsx:326-331, 362-364).
 */
module Keyboard {
  import opened Options

  /**
   * One key of a layout: the character it types without Shift (`base`), with
   * Shift (`shift`), the caption of a function key (`display`) and the
   * `KeyboardEvent.code` of the physical key. The rendering weight `flex` is
   * not modelled.
   */
  datatype Key = Key(base: Option<string>, shift: Option<string>, display: Option<string>, code: string)

  /** Rows of keys, top row first. */
  type Layout = seq<seq<Key>>

  /** The Korean two-set (Dubeolsik) 101-key layout (index.tsx:36-52). */
  const Korean101Layout: Layout := [KoreanRow0, KoreanRow1, KoreanRow2, KoreanRow3, KoreanRow4]

  const KoreanRow0: seq<Key> := [
    Key(Some("`"), Some("~"), None, "Backquote"),
    Key(Some("1"), Some("!"), None, "Digit1"),
    Key(Some("2"), Some("@"), None, "Digit2"),
    Key(Some("3"), Some("#"), None, "Digit3"),
    Key(Some("4"), Some("$"), None, "Digit4"),
    Key(Some("5"), Some("%"), None, "Digit5"),
    Key(Some("6"), Some("^"), None, "Digit6"),
    Key(Some("7"), Some("&"), None, "Digit7"),
    Key(Some("8"), Some("*"), None, "Digit8"),
    Key(Some("9"), Some("("), None, "Digit9"),
    Key(Some("0"), Some(")"), None, "Digit0"),
    Key(Some("-"), Some("_"), None, "Minus"),
    Key(Some("="), Some("+"), None, "Equal"),
    Key(None, None, Some("Backspace"), "Backspace")
  ]

  const KoreanRow1: seq<Key> := [
    Key(None, None, Some("Tab"), "Tab"),
    Key(Some("ㅂ"), Some("ㅃ"), None, "KeyQ"),
    Key(Some("ㅈ"), Some("ㅉ"), None, "KeyW"),
    Key(Some("ㄷ"), Some("ㄸ"), None, "KeyE"),
    Key(Some("ㄱ"), Some("ㄲ"), None, "KeyR"),
    Key(Some("ㅅ"), Some("ㅆ"), None, "KeyT"),
    Key(Some("ㅛ"), None, None, "KeyY"),
    Key(Some("ㅕ"), None, None, "KeyU"),
    Key(Some("ㅑ"), None, None, "KeyI"),
    Key(Some("ㅐ"), Some("ㅒ"), None, "KeyO"),
    Key(Some("ㅔ"), Some("ㅖ"), None, "KeyP"),
    Key(Some("["), Some("{"), None, "BracketLeft"),
    Key(Some("]"), Some("}"), None, "BracketRight"),
    Key(Some("\\"), Some("|"), None, "Backslash")
  ]

  const KoreanRow2: seq<Key> := [
    Key(None, None, Some("Caps Lock"), "CapsLock"),
    Key(Some("ㅁ"), None, None, "KeyA"),
    Key(Some("ㄴ"), None, None, "KeyS"),
    Key(Some("ㅇ"), None, None, "KeyD"),
    Key(Some("ㄹ"), None, None, "KeyF"),
    Key(Some("ㅎ"), None, None, "KeyG"),
    Key(Some("ㅗ"), None, None, "KeyH"),
    Key(Some("ㅓ"), None, None, "KeyJ"),
    Key(Some("ㅏ"), None, None, "KeyK"),
    Key(Some("ㅣ"), None, None, "KeyL"),
    Key(Some(";"), Some(":"), None, "Semicolon"),
    Key(Some("'"), Some("\""), None, "Quote"),
    Key(None, None, Some("Enter"), "Enter")
  ]

  const KoreanRow3: seq<Key> := [
    Key(None, None, Some("Shift"), "ShiftLeft"),
    Key(Some("ㅋ"), None, None, "KeyZ"),
    Key(Some("ㅌ"), None, None, "KeyX"),
    Key(Some("ㅊ"), None, None, "KeyC"),
    Key(Some("ㅍ"), None, None, "KeyV"),
    Key(Some("ㅠ"), None, None, "KeyB"),
    Key(Some("ㅜ"), None, None, "KeyN"),
    Key(Some("ㅡ"), None, None, "KeyM"),
    Key(Some(","), Some("<"), None, "Comma"),
    Key(Some("."), Some(">"), None, "Period"),
    Key(Some("/"), Some("?"), None, "Slash"),
    Key(None, None, Some("Shift"), "ShiftRight")
  ]

  const KoreanRow4: seq<Key> := [
    Key(None, None, Some("Ctrl"), "ControlLeft"),
    Key(None, None, Some("Alt"), "AltLeft"),
    Key(None, None, Some("Space"), "Space"),
    Key(None, None, Some("Alt"), "AltRight"),
    Key(None, None, Some("Ctrl"), "ControlRight")
  ]

  /** The US QWERTY 101-key layout (index.tsx:53-69). */
  const English101Layout: Layout := [EnglishRow0, EnglishRow1, EnglishRow2, EnglishRow3, EnglishRow4]

  const EnglishRow0: seq<Key> := [
    Key(Some("`"), Some("~"), None, "Backquote"),
    Key(Some("1"), Some("!"), None, "Digit1"),
    Key(Some("2"), Some("@"), None, "Digit2"),
    Key(Some("3"), Some("#"), None, "Digit3"),
    Key(Some("4"), Some("$"), None, "Digit4"),
    Key(Some("5"), Some("%"), None, "Digit5"),
    Key(Some("6"), Some("^"), None, "Digit6"),
    Key(Some("7"), Some("&"), None, "Digit7"),
    Key(Some("8"), Some("*"), None, "Digit8"),
    Key(Some("9"), Some("("), None, "Digit9"),
    Key(Some("0"), Some(")"), None, "Digit0"),
    Key(Some("-"), Some("_"), None, "Minus"),
    Key(Some("="), Some("+"), None, "Equal"),
    Key(None, None, Some("Backspace"), "Backspace")
  ]

  const EnglishRow1: seq<Key> := [
    Key(None, None, Some("Tab"), "Tab"),
    Key(Some("q"), Some("Q"), None, "KeyQ"),
    Key(Some("w"), Some("W"), None, "KeyW"),
    Key(Some("e"), Some("E"), None, "KeyE"),
    Key(Some("r"), Some("R"), None, "KeyR"),
    Key(Some("t"), Some("T"), None, "KeyT"),
    Key(Some("y"), Some("Y"), None, "KeyY"),
    Key(Some("u"), Some("U"), None, "KeyU"),
    Key(Some("i"), Some("I"), None, "KeyI"),
    Key(Some("o"), Some("O"), None, "KeyO"),
    Key(Some("p"), Some("P"), None, "KeyP"),
    Key(Some("["), Some("{"), None, "BracketLeft"),
    Key(Some("]"), Some("}"), None, "BracketRight"),
    Key(Some("\\"), Some("|"), None, "Backslash")
  ]

  const EnglishRow2: seq<Key> := [
    Key(None, None, Some("Caps Lock"), "CapsLock"),
    Key(Some("a"), Some("A"), None, "KeyA"),
    Key(Some("s"), Some("S"), None, "KeyS"),
    Key(Some("d"), Some("D"), None, "KeyD"),
    Key(Some("f"), Some("F"), None, "KeyF"),
    Key(Some("g"), Some("G"), None, "KeyG"),
    Key(Some("h"), Some("H"), None, "KeyH"),
    Key(Some("j"), Some("J"), None, "KeyJ"),
    Key(Some("k"), Some("K"), None, "KeyK"),
    Key(Some("l"), Some("L"), None, "KeyL"),
    Key(Some(";"), Some(":"), None, "Semicolon"),
    Key(Some("'"), Some("\""), None, "Quote"),
    Key(None, None, Some("Enter"), "Enter")
  ]

  const EnglishRow3: seq<Key> := [
    Key(None, None, Some("Shift"), "ShiftLeft"),
    Key(Some("z"), Some("Z"), None, "KeyZ"),
    Key(Some("x"), Some("X"), None, "KeyX"),
    Key(Some("c"), Some("C"), None, "KeyC"),
    Key(Some("v"), Some("V"), None, "KeyV"),
    Key(Some("b"), Some("B"), None, "KeyB"),
    Key(Some("n"), Some("N"), None, "KeyN"),
    Key(Some("m"), Some("M"), None, "KeyM"),
    Key(Some(","), Some("<"), None, "Comma"),
    Key(Some("."), Some(">"), None, "Period"),
    Key(Some("/"), Some("?"), None, "Slash"),
    Key(None, None, Some("Shift"), "ShiftRight")
  ]

  const EnglishRow4: seq<Key> := [
    Key(None, None, Some("Ctrl"), "ControlLeft"),
    Key(None, None, Some("Alt"), "AltLeft"),
    Key(Some(" "), Some(" "), Some("Space"), "Space"),
    Key(None, None, Some("Alt"), "AltRight"),
    Key(None, None, Some("Ctrl"), "ControlRight")
  ]

  /** `layout.flat()`: every key, row after row, left to right within a row. */
  function Flatten(layout: Layout): seq<Key>
  {
    if layout == [] then [] else layout[0] + Flatten(layout[1..])
  }

  /** Flattening distributes over stacking two blocks of rows. */
  lemma {:induction false} FlattenAppend(a: Layout, b: Layout)
    ensures Flatten(a + b) == Flatten(a) + Flatten(b)
    decreases |a|
  {
    if a == [] {
      assert a + b == b;
    } else {
      assert (a + b)[1..] == a[1..] + b;
      FlattenAppend(a[1..], b);
    }
  }

  /** The number of keys in the rows before row `r`. */
  function RowOffset(layout: Layout, r: nat): nat
    requires r <= |layout|
  {
    |Flatten(layout[..r])|
  }

  /**
   * Row-then-column order: the key in row `r`, column `c` sits at position
   * `RowOffset(layout, r) + c` of the flattened layout.
   */
  lemma FlattenPosition(layout: Layout, r: nat, c: nat)
    requires r < |layout| && c < |layout[r]|
    ensures RowOffset(layout, r) + c < |Flatten(layout)|
    ensures Flatten(layout)[RowOffset(layout, r) + c] == layout[r][c]
  {
    assert layout == layout[..r] + [layout[r]] + layout[r + 1..];
    FlattenAppend(layout[..r] + [layout[r]], layout[r + 1..]);
    FlattenAppend(layout[..r], [layout[r]]);
    assert Flatten([layout[r]]) == layout[r] + Flatten([]);
  }

  /** The key to press for a character, and whether Shift must be held with it. */
  datatype Target = Target(key: Key, needsShift: bool)

  /** Key `k` types `ch`, with or without Shift. */
  predicate Types(k: Key, ch: string)
  {
    k.base == Some(ch) || k.shift == Some(ch)
  }

  /** Position `i` holds the first key of `keys` that types `ch`. */
  ghost predicate FirstTyping(keys: seq<Key>, ch: string, i: int)
  {
    0 <= i < |keys| && Types(keys[i], ch) && forall j | 0 <= j < i :: !Types(keys[j], ch)
  }

  /**
   * The search over the flattened layout, with its early returns: on each key
   * `base` is tested before `shift`.
   */
  function FindTarget(keys: seq<Key>, ch: string): (r: Option<Target>)
    ensures r.Some? ==> r.value.key in keys && Types(r.value.key, ch)
    ensures r.Some? ==> (r.value.needsShift <==> r.value.key.base != Some(ch))
  {
    if keys == [] then None
    else if keys[0].base == Some(ch) then Some(Target(keys[0], false))
    else if keys[0].shift == Some(ch) then Some(Target(keys[0], true))
    else FindTarget(keys[1..], ch)
  }

  /**
   * The search finds nothing exactly when no key types `ch`; otherwise it
   * returns the first key that does, with Shift needed exactly when that key's
   * `base` is not `ch`.
   */
  lemma {:induction false} FindTargetIsFirst(keys: seq<Key>, ch: string)
    ensures FindTarget(keys, ch).None? <==> forall i | 0 <= i < |keys| :: !Types(keys[i], ch)
    ensures forall i | FirstTyping(keys, ch, i) ::
      FindTarget(keys, ch) == Some(Target(keys[i], keys[i].base != Some(ch)))
    decreases |keys|
  {
    if keys != [] {
      if Types(keys[0], ch) {
        forall i | FirstTyping(keys, ch, i)
          ensures i == 0
        {
        }
      } else {
        var rest := keys[1..];
        FindTargetIsFirst(rest, ch);
        forall i | 0 <= i < |rest| && !Types(rest[i], ch)
          ensures !Types(keys[i + 1], ch)
        {
          assert rest[i] == keys[i + 1];
        }
        if forall i | 0 <= i < |rest| :: !Types(rest[i], ch) {
          forall i | 0 <= i < |keys|
            ensures !Types(keys[i], ch)
          {
            if i > 0 {
              assert keys[i] == rest[i - 1];
            }
          }
        }
        forall i | FirstTyping(keys, ch, i)
          ensures FindTarget(keys, ch) == Some(Target(keys[i], keys[i].base != Some(ch)))
        {
          assert i > 0 && keys[i] == rest[i - 1];
          forall j | 0 <= j < i - 1
            ensures !Types(rest[j], ch)
          {
            assert rest[j] == keys[j + 1];
          }
          assert FirstTyping(rest, ch, i - 1);
        }
      }
    }
  }

  /**
   * `targetKey`/`needsShift`: no target when there is no next character,
   * otherwise the first key of the flattened layout that types it.
   */
  function ResolveTarget(layout: Layout, nextChar: Option<char>): (r: Option<Target>)
    ensures nextChar.None? ==> r.None?
    ensures r.Some? ==> r.value.key in Flatten(layout) && Types(r.value.key, [nextChar.value])
  {
    match nextChar
    case None => None
    case Some(c) => FindTarget(Flatten(layout), [c])
  }

  /** `layout.flat().find(k => k.code === code)`. */
  function FindByCode(keys: seq<Key>, code: string): (r: Option<Key>)
    ensures r.Some? ==> r.value in keys && r.value.code == code
    ensures r.None? <==> forall i | 0 <= i < |keys| :: keys[i].code != code
  {
    if keys == [] then None
    else if keys[0].code == code then Some(keys[0])
    else FindByCode(keys[1..], code)
  }

  /** The search by code returns the first key with that code. */
  lemma {:induction false} FindByCodeIsFirst(keys: seq<Key>, code: string, i: nat)
    requires i < |keys| && keys[i].code == code
    requires forall j | 0 <= j < i :: keys[j].code != code
    ensures FindByCode(keys, code) == Some(keys[i])
    decreases i
  {
    if i > 0 {
      forall j | 0 <= j < i - 1
        ensures keys[1..][j].code != code
      {
        assert keys[1..][j] == keys[j + 1];
      }
      FindByCodeIsFirst(keys[1..], code, i - 1);
    }
  }

  /** JavaScript truthiness of an optional string: present and non-empty. */
  predicate Truthy(s: Option<string>)
  {
    s.Some? && s.value != ""
  }

  /**
   * One `keydown` event: the physical key, the character the browser
   * reports, and the modifier and auto-repeat flags.
   */
  datatype KeyEvent = KeyEvent(
    code: string, key: string,
    shiftKey: bool, altKey: bool, ctrlKey: bool, metaKey: bool,
    repeat: bool)

  /**
   * The character recorded for a wrong press: the pressed key's `shift`
   * label when it has one and Shift is held, else its `base` label, else the
   * browser's `key`, and `"?"` when that too is empty.
   */
  function PressedLabel(layout: Layout, e: KeyEvent): (shown: string)
    ensures shown != ""
    ensures FindByCode(Flatten(layout), e.code).None? ==> shown == (if e.key == "" then "?" else e.key)
    ensures var info := FindByCode(Flatten(layout), e.code);
      info.Some? && e.shiftKey && Truthy(info.value.shift) ==> shown == info.value.shift.value
    ensures var info := FindByCode(Flatten(layout), e.code);
      info.Some? && !(e.shiftKey && Truthy(info.value.shift)) && Truthy(info.value.base) ==> shown == info.value.base.value
    ensures var info := FindByCode(Flatten(layout), e.code);
      info.Some? && !(e.shiftKey && Truthy(info.value.shift)) && !Truthy(info.value.base) ==>
      shown == (if e.key == "" then "?" else e.key)
  {
    var info := FindByCode(Flatten(layout), e.code);
    var pressed :=
      if info.Some? && Truthy(info.value.shift) && e.shiftKey then info.value.shift.value
      else if info.Some? && Truthy(info.value.base) then info.value.base.value
      else e.key;
    if pressed == "" then "?" else pressed
  }

  /**
   * When the pressed key has a label for the Shift state held (its Shift
   * label with Shift, or else its base label), the character recorded is one
   * that key of the layout types, in that Shift state when it has a Shift
   * label. Otherwise the browser's `key`, or "?", is recorded.
   */
  lemma PressedLabelTypesKey(layout: Layout, e: KeyEvent)
    ensures var info := FindByCode(Flatten(layout), e.code);
      info.Some? && ((e.shiftKey && Truthy(info.value.shift)) || Truthy(info.value.base)) ==>
        && info.value in Flatten(layout) && info.value.code == e.code
        && Types(info.value, PressedLabel(layout, e))
        && (e.shiftKey && Truthy(info.value.shift) ==> info.value.shift == Some(PressedLabel(layout, e)))
    ensures var info := FindByCode(Flatten(layout), e.code);
      !(info.Some? && ((e.shiftKey && Truthy(info.value.shift)) || Truthy(info.value.base))) ==>
        PressedLabel(layout, e) == (if e.key == "" then "?" else e.key)
  {
  }

  /** How a key-down event is handled. */
  datatype Press = Ignored | Hit | Miss

  /**
   * Events are ignored while there is no target key, on auto-repeat and with
   * Alt, Ctrl or Meta held; otherwise the press is a hit exactly when the
   * physical key is the target key and the Shift state is exactly the one it
   * needs.
   */
  function Classify(target: Option<Target>, e: KeyEvent): Press
  {
    if target.None? || e.repeat then Ignored
    else if e.altKey || e.ctrlKey || e.metaKey then Ignored
    else if e.code == target.value.key.code && e.shiftKey == target.value.needsShift then Hit
    else Miss
  }

  /** No event with a modifier other than Shift, or on auto-repeat, is counted. */
  lemma ModifiersAreIgnored(target: Option<Target>, e: KeyEvent)
    ensures Classify(target, e) == Ignored <==> target.None? || e.repeat || e.altKey || e.ctrlKey || e.metaKey
  {
  }

  /**
   * A hit means the pressed physical key, in the pressed Shift state, types the
   * expected character.
   */
  lemma HitTypesNextChar(layout: Layout, c: char, e: KeyEvent)
    requires Classify(ResolveTarget(layout, Some(c)), e) == Hit
    ensures exists k | k in Flatten(layout) ::
      (k.code == e.code && if e.shiftKey then k.shift == Some([c]) else k.base == Some([c]))
  {
    var k := ResolveTarget(layout, Some(c)).value.key;
    assert k in Flatten(layout) && k.code == e.code;
  }

  /** Only one Shift state and one physical key code are accepted for a target. */
  lemma HitIsUnique(target: Option<Target>, e1: KeyEvent, e2: KeyEvent)
    requires Classify(target, e1) == Hit && Classify(target, e2) == Hit
    ensures e1.code == e2.code && e1.shiftKey == e2.shiftKey
  {
  }

  /** No key with this code types any character (a modifier or function key). */
  predicate LabelFree(layout: Layout, code: string)
  {
    forall k | k in Flatten(layout) && k.code == code :: k.base.None? && k.shift.None?
  }

  /**
   * Holding Shift down on its own is never the expected keystroke: with a
   * target resolved, the bare key-down of a key that types nothing is a miss.
   */
  lemma BareModifierIsMiss(layout: Layout, c: char, e: KeyEvent)
    requires LabelFree(layout, e.code)
    requires !e.repeat && !e.altKey && !e.ctrlKey && !e.metaKey
    requires ResolveTarget(layout, Some(c)).Some?
    ensures Classify(ResolveTarget(layout, Some(c)), e) == Miss
  {
    var t := ResolveTarget(layout, Some(c)).value;
    assert t.key in Flatten(layout) && Types(t.key, [c]);
  }
}
