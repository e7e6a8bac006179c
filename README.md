# First Step of Keyboard: a verified model of the typing tutor's engine

The typing tutor teaches young children to type Korean (Hangul) and English on
a 101-key keyboard. This project models its engine in Dafny:

- **The Hangul keystroke decomposer** (`Hangul`, with the word-level
  machinery in `Words`). It splits each precomposed syllable U+AC00..U+D7A3
  into a leading consonant, a vowel and an optional final consonant. It uses
  the arithmetic of the Unicode Standard, chapter 3, section 3.12, "Hangul
  Syllable Decomposition": SBase 0xAC00, 21 vowels, 28 trailing indices.
  The output is Hangul Compatibility Jamo. Each of the 7 compound vowels and
  11 compound finals becomes its two keystrokes. Every other character
  passes through unchanged.
- **The end-index table.** For each character of a word, this is the index
  of its last keystroke.
- **Target-key resolution and keystroke matching** (`Keyboard`). The Korean
  two-set layout and the US QWERTY layout are modelled key by key. The search
  finds the key that types the next expected character, and a key-down event
  is classified as ignored, correct or incorrect.
- **The practice screen** (`Practice.TypingPractice`). It holds the word
  queue, the expected keystroke sequence, the cursor (`typedCount`) and the
  per-syllable feedback marks. A key-down event and the loading of the next
  word are its transitions.
- **The application shell** (`Session`). This covers screen navigation, mode
  selection, the correct-input, star and per-character counters, and the
  mute and volume settings.
- **Coverage** (`Coverage`). The Korean layout has a key for every keystroke
  of every Hangul syllable.

A character is a Dafny `char`, one Unicode scalar value. That is what one step
of the source's `for (const char of word)` yields. A keystroke sequence is a
`string`, one character per element of the source's `string[]`.

Three details of the code that the model keeps as written:

- A key may have both a base character and a display label. The English
  Space key has both (`base: ' '`, `display: 'Space'`).
- The key search is ordered. It returns the first match in row-then-column
  order and tests `base` before `shift` on each key.
- Back from the English typing screen leads to the main menu, not to the
  keyboard menu it was entered from (`goBack` only knows the current screen).

## Model

| member | source | states |
|---|---|---|
| Hangul.SyllableIndices | index.tsx:81-85 | the leading, vowel and trailing indices lie in 0..18, 0..20 and 0..27, and the syllable's code point is 0xAC00 + (lead·21 + vowel)·28 + trail |
| Hangul.IsSyllable | index.tsx:81 | the range test `'가' <= char <= '힣'`: a character is decomposed exactly when it is a precomposed syllable U+AC00..U+D7A3 |
| Hangul.VowelKeys | index.tsx:89-94 | the keystrokes pushed for a vowel index: the two components of a compound vowel, else the vowel itself (shape in `VowelKeysShape`) |
| Hangul.FinalKeys | index.tsx:96-103 | the keystrokes pushed for a trailing index: none for 0, the two components of a compound final, else the final itself (shape in `FinalKeysShape`) |
| Hangul.DecomposeChar | index.tsx:80-106 | one pass of the loop body: a syllable gives its lead, vowel keys and final keys; any other character gives itself (properties in `SyllableKeystrokes`, `DecomposeCharSize`, `RecomposeIff`) |
| Hangul.Decompose | index.tsx:78-109 | the reference result of `decomposeHangul`: each character's keystrokes, left to right (properties in `DecomposeAppend`, `DecomposeLength`, `DecomposePassThrough`) |
| Hangul.ComposeSyllable | index.tsx:82-85 | every index triple names a syllable in U+AC00..U+D7A3 whose indices are that triple, so the index split is a bijection |
| Hangul.DecomposeHangul | index.tsx:78-109 | the imperative loop that pushes each character's keystrokes returns exactly the keystrokes of the word, character after character |
| Hangul.SyllableKeystrokes | index.tsx:87-103 | a syllable gives one keystroke for the lead plus those of its vowel and of its final, 2 to 5 in all: the leading consonant, then the vowel or the two components of a compound vowel in table order, then nothing for trailing index 0, else the final or the two components of a compound final; every keystroke is a simple jamo with no entry in either compound table |
| Hangul.VowelKeysShape | index.tsx:89-94 | a vowel gives two keystrokes exactly when it is compound, and each is a simple vowel jamo |
| Hangul.FinalKeysShape | index.tsx:96-103 | a final gives none for trailing index 0, two exactly when it is compound, else one; each is a simple consonant jamo |
| Hangul.LeadShape | index.tsx:72 | every leading consonant is a simple consonant jamo |
| Hangul.RecomposeIff | index.tsx:80-103 | a syllable's keystrokes, recombined as a two-set keyboard composes them, give back that syllable, and no other keystrokes give it |
| Hangul.RecomposeDecompose | index.tsx:80-103 | recombining a syllable's keystrokes gives the syllable |
| Hangul.DecomposeRecompose | index.tsx:80-103 | whatever the recombiner accepts is exactly the keystrokes of the syllable it returns |
| Hangul.DecomposeCharInjective | index.tsx:80-106 | distinct characters have distinct keystroke sequences |
| Hangul.DecomposeCharSize | index.tsx:80-106 | every character gives 1 to 5 keystrokes, and a non-syllable gives exactly itself |
| Hangul.DecomposeAppend | index.tsx:80-107 | decomposing a concatenation concatenates the decompositions |
| Hangul.DecomposeLength | index.tsx:80-107 | a word's keystroke count is the sum of its characters' counts, between the word's length and five times it |
| Hangul.DecomposePassThrough | index.tsx:104-106 | a word without syllables decomposes to itself, one to one |
| Hangul.DecomposeExamples | index.tsx:78-109 | "사과" gives ㅅㅏㄱㅗㅏ, "닭" gives ㄷㅏㄹㄱ and "abc" gives abc |
| Hangul.CharEndIndices | index.tsx:291-299 | the running-count loop builds the word's end-index table |
| Hangul.EndIndices | index.tsx:292-297 | the reference end-index table: one entry per character of the word (entries pinned by `EndIndexAt` and `EndIndicesProperties`) |
| Hangul.EndIndexAt | index.tsx:292-297 | entry i is the number of keystrokes of characters 0..i, minus one |
| Hangul.EndIndicesIncrease | index.tsx:292-297 | the end indices strictly increase |
| Hangul.EndIndicesProperties | index.tsx:292-297 | entry i is the keystroke sum of characters 0..i minus one; each entry adds its character's count to the one before; the entries strictly increase; the last is the index of the word's last keystroke |
| Keyboard.FlattenPosition | index.tsx:315 | the key in row r, column c sits at position offset(r) + c of the flattened layout (row-then-column order) |
| Keyboard.Flatten | index.tsx:315 | `layout.flat()`: every key, row after row, left to right (positions in `FlattenPosition`) |
| Keyboard.FindTarget | index.tsx:315-322 | a key found types the character, and Shift is needed exactly when its `base` does not type it |
| Keyboard.FindTargetIsFirst | index.tsx:313-324 | the search finds nothing exactly when no key types the character, else the first key that does, with Shift needed exactly when that key's `base` is not the character |
| Keyboard.ResolveTarget | index.tsx:313-324 | no target when there is no next character; a target found is a key of the layout that types it |
| Keyboard.FindByCode | index.tsx:365 | the search by code finds a key with that code, and finds nothing exactly when no key has it |
| Keyboard.FindByCodeIsFirst | index.tsx:365 | the search by code returns the first key with that code |
| Keyboard.PressedLabel | index.tsx:365-367 | the character recorded for a wrong key: the key's `shift` label if it has one and Shift is held, else its `base` label, else the browser's `key`, else "?"; never empty |
| Keyboard.PressedLabelTypesKey | index.tsx:365-367 | when the pressed key has a label for the Shift state held, the character recorded is one that key types, its Shift label when Shift is held and it has one; otherwise the browser's `key` or "?" is recorded |
| Keyboard.Classify | index.tsx:327-331 | the test of `handleKeyPress`: ignored without a target, on auto-repeat or with Alt, Ctrl or Meta; a hit exactly when the code and Shift state are the target's; a miss otherwise (properties in `ModifiersAreIgnored`, `HitTypesNextChar`, `HitIsUnique`) |
| Keyboard.ModifiersAreIgnored | index.tsx:327-328 | an event is ignored exactly when there is no target, it is a repeat, or Alt, Ctrl or Meta is held |
| Keyboard.HitTypesNextChar | index.tsx:331 | a correct press is a physical key that types the expected character in the Shift state held |
| Keyboard.HitIsUnique | index.tsx:331 | only one key code and one Shift state are accepted for a target |
| Keyboard.BareModifierIsMiss | index.tsx:327-331 | pressing a key that types nothing, such as a bare Shift, while a target exists is classified incorrect |
| Practice.SourceListFits | index.tsx:277 | each mode draws from a non-empty vocabulary of its own kind of entry |
| Practice.SourceList | index.tsx:277 | the word list a queue refill reorders: English words in English mode, Korean words in both Korean modes |
| Practice.FindIndex | index.tsx:336 | `findIndex(typed <= end)`: the first entry at or after the cursor, or -1 exactly when every entry is before it |
| Practice.IndexOf | index.tsx:350 | `indexOf`: the first position holding the value, or -1 exactly when it is absent |
| Practice.CurrentCharOwnsCursor | index.tsx:336 | the character found for a cursor inside the word is the one whose keystrokes contain the cursor |
| Practice.CompletedIsCurrent | index.tsx:350 | the character completed by a keystroke is the cursor's own, and only when the keystroke was its last |
| Practice.ClearIncorrect | index.tsx:336-343 | the first update of a correct key: an "incorrect" mark on the cursor's character is removed |
| Practice.MarkCompleted | index.tsx:348-353 | the second update of a correct key: the character whose last keystroke was just typed is marked correct |
| Practice.AfterHit | index.tsx:336-353 | both updates of a correct key in order (effect in `AfterHitEffect`, invariant kept in `AfterHitAgrees`) |
| Practice.AfterMiss | index.tsx:362-367 | a wrong key marks the cursor's character incorrect with the pressed label (effect in `AfterMissEffect`, invariant kept in `AfterMissAgrees`) |
| Practice.AfterHitEffect | index.tsx:335-354 | a correct keystroke changes only the cursor's character's mark: it becomes correct when that keystroke was the character's last, otherwise an incorrect mark on it is dropped |
| Practice.AfterMissEffect | index.tsx:362-367 | a wrong keystroke marks the cursor's character incorrect with the key pressed, and changes nothing else |
| Practice.FreshFeedbackAgrees | index.tsx:274 | a new word's empty feedback agrees with a cursor at 0 |
| Practice.AfterHitAgrees | index.tsx:335-354 | after a correct keystroke, exactly the characters wholly behind the cursor are marked correct, and only the cursor's character can be marked incorrect |
| Practice.AfterMissAgrees | index.tsx:362-367 | a wrong keystroke keeps that agreement |
| Practice.HitKeepsWordState | index.tsx:333-359 | a correct keystroke inside the word keeps the word's state consistent with the cursor one further |
| Practice.MissKeepsWordState | index.tsx:360-369 | a wrong keystroke keeps the word's state consistent with the unmoved cursor |
| Practice.FreshWordState | index.tsx:285-305 | a freshly loaded word, cursor at 0 and no marks, is a consistent word state |
| Practice.TypingPractice.NextChar | index.tsx:268 | there is a next character exactly while the cursor is inside the target sequence |
| Practice.TypingPractice.CurrentTarget | index.tsx:313-324 | the target of the next character: none once the word is complete; when present, a key of the mode's layout that types the next character |
| Practice.TypingPractice.constructor | index.tsx:222-229 | the screen starts empty, cursor 0, no marks, the initial message and an empty queue, with no key to press; its vocabulary is the word list of its mode (index.tsx:277) |
| Practice.TypingPractice.GenerateNewWord | index.tsx:270-305 | loading a word resets the message, cursor and marks; it refills the queue with a reordering of the mode's word list when used up and takes its next entry, an entry of that list; it shows that entry with its keystrokes and, in word practice, its end-index table; the screen stays consistent, showing the entry last taken from the queue |
| Practice.TypingPractice.NextEntry | index.tsx:276-283 | the queue is refilled exactly when exhausted, the index rises by one, and the entry taken is an entry of the mode's word list |
| Practice.TypingPractice.ShowWord | index.tsx:285-305 | a Korean word is shown untranslated with its Hangul decomposition; an English word is shown with its gloss and typed letter by letter |
| Practice.TypingPractice.HandleKeyPress | index.tsx:326-371 | ignored events change nothing; a correct key advances the cursor by one, updates the marks, reports the expected character and cheers exactly on completion; a wrong key keeps the cursor, marks the current syllable with the key pressed and shows a support message |
| Practice.TypingPractice.AcceptKey | index.tsx:333-359 | the correct-key branch: cursor plus one, both mark updates, a cheering message exactly when the word is complete |
| Practice.TypingPractice.RejectKey | index.tsx:360-369 | the wrong-key branch: a support message and the incorrect mark with the pressed key's label |
| Coverage.SyllableTypable | index.tsx:36-52 | every keystroke of every Hangul syllable is typed by some key of the Korean layout |
| Coverage.WordTypable | index.tsx:313-324 | while a word of syllables is typed, the next keystroke always has a target key on the Korean layout |
| Coverage.KoreanVocabularyIsHangul | index.tsx:7 | every Korean vocabulary word is made of Hangul syllables |
| Coverage.PracticeHasTarget | index.tsx:313-328 | a Korean practice screen, whose word always comes from the Korean word list, has a key to press until the word is complete, so no keystroke of it is silently ignored |
| Session.PreviousScreen | index.tsx:591-595 | Back leads to the main menu or the keyboard menu, and changes the screen exactly when it is not the main menu |
| Session.BackTarget | index.tsx:591-595 | Back leads to the keyboard menu from the Korean menu and to the main menu from everywhere else |
| Session.BackTwiceIsMain | index.tsx:591-595 | Back twice always reaches the main menu |
| Session.SelectMode | index.tsx:579-584 | the chosen screen is shown; choosing the typing screen selects English, and any other choice keeps the mode |
| Session.SelectPractice | index.tsx:586-589 | the typing screen is shown with the chosen mode |
| Session.EnteringTypingChoosesMode | index.tsx:579-589 | every offered way onto the typing screen sets its mode: English from the keyboard menu, the pressed Korean mode from the Korean menu |
| Session.BackUndoesChoice | index.tsx:579-595 | Back after a menu choice returns to the menu it was made on, except after English typing, which returns to the main menu |
| Session.AllScreensReachable | index.tsx:579-595 | every screen is reachable from the main menu by offered buttons |
| Session.AddCorrect | index.tsx:565-573 | one step of `handleCorrectInput` on the counters (effect in `AddCorrectEffect`, closed form in `TalliedCounts`) |
| Session.AddCorrectEffect | index.tsx:565-573 | a correct input raises the count by exactly one, the stars by one exactly when the new count is a multiple of ten, and the given character's count by one, leaving every other character's count unchanged |
| Session.TalliedCounts | index.tsx:565-573 | after any run of correct inputs from the start, the count is the number of inputs, the stars are one per full ten, and each character's count is the number of inputs carrying it |
| Session.MuteToggled | index.tsx:544-550 | toggling mute flips muting and keeps the volume |
| Session.VolumeChanged | index.tsx:552-555 | choosing a volume sets it and always unmutes |
| Session.SoundSettingsLaws | index.tsx:544-555 | mute toggled twice restores the settings; a chosen volume does not depend on the previous muting; choosing the same volume twice changes nothing |
| Session.App.constructor | index.tsx:529-536 | the application starts on the main menu in English mode, with nothing counted and sound on at level 2 |
| Session.App.HandleCorrectInput | index.tsx:565-577 | the counters take one correct-input step, and the stars stay one per full ten correct inputs |
| Session.App.GoBack | index.tsx:591-595 | the screen becomes the previous screen |
| Session.App.HandleSelectMode | index.tsx:579-584 | the screen and mode take the choice of `handleSelectMode` |
| Session.App.HandleSelectPractice | index.tsx:586-589 | the screen and mode take the choice of `handleSelectPractice` |
| Session.App.HandleMuteToggle | index.tsx:544-550 | the sound settings take a mute toggle |
| Session.App.HandleVolumeChange | index.tsx:552-555 | the sound settings take a volume change |
| Session.App.OnTypingKey | index.tsx:326-371 | a key-down event on the typing screen (`handleKeyPress` with its `onCorrect(nextChar)` call at line 345): the practice screen takes the ignored, correct or wrong-key effect of `HandleKeyPress` (cursor, marks and message), a correct key's character is counted once, and nothing else is counted |

## Left out

- React rendering: the SVG character, the display components, virtual-keyboard highlighting and the JSX of every screen. These are presentation only.
- Speech synthesis, voice loading and the `speechSynthesis.cancel` calls. These are browser APIs outside the program. The model keeps only the mute and volume settings they read.
- `Math.random`. The queue refill takes the shuffled list as a parameter required to be a reordering of the mode's word list. The cheering and support messages are chosen by index parameters.
- `setTimeout`. Completion is the state `typedCount == |targetSequence|`, and loading the next word is the separate transition `GenerateNewWord`. The sparkle timer is left out with the sparkles.
- The mouse practice game and the sparkles. These depend on DOM geometry, floating point, timers and `Date.now`. A fruit click reaches `handleCorrectInput` without a character, which `HandleCorrectInput(None)` covers.
- The progress report's sorting, top-ten cut and bar widths. This is display arithmetic over the counters the model keeps.
- The `flex` rendering weight of each key.
- React state batching, effects and stale closures. Each handler is one atomic transition over the values it reads. The effect that resets the queue when the mode changes is the constructor of `TypingPractice` followed by its first `GenerateNewWord`.
- `e.preventDefault()`, which has no effect on the modelled state.
- Lone UTF-16 surrogates in a word. They are not Unicode scalar values, so a Dafny `char` cannot hold one. English words are split by UTF-16 code unit in the source; the vocabulary is ASCII, where code units and characters agree.
- Coverage.SyllableTypable: it proves that some key types each keystroke, not which key the search returns or whether Shift is needed.
