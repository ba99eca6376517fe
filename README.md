# Music Analyzer: keyboard, note texts, chord table and part labels in Dafny

This is a Dafny model of the bookkeeping that Music Analyzer for Chords and
Sheet Music does around the music21 library. Chord naming, keys and
enharmonic simplification stay with the library. The model covers the parts
the program does itself, with proofs of their properties:

- **The virtual keyboard** (`frontend/assets/virtual_keyboard.py`):
  - the 88 key identifiers `Wh1`..`Wh52` and `BlN`, with the 15 skipped black positions;
  - the note-to-key dictionary, kept in insertion order;
  - `note_to_key`, and `get_note_from_key` with its second-spelling option;
  - the naming of a key in `key_click_handler`, including shift;
  - the held-sounds queue of `play_note_sound` and the pedal release of `toggle_sustain`;
  - the canvas colours that `highlight_key` and `reset_all_keys` set.

  The widget is the class `KeyboardWidget.VirtualKeyboard`. Its methods name
  the fields they change.
- **The analyzer window** (`frontend/music_analyzer.py`):
  - `normalize_note`;
  - the octave-crossing `switch_dict` of `get_equivalent_notes`;
  - the toggle edit a keyboard click makes to the comma-separated note box (`update_chord_name`), and `clear_notes`;
  - the row filter of `apply_filters_helper`;
  - the two views of `apply_filters`, one of them a stable sort by (measure, beat).
- **Part labelling** (`backend/chord_extractor.py`): `label_consecutive_parts`.
  It labels runs of equally named parts as Treble, Bass and Additional clefs,
  then writes the labels back into the parts.

Modules:

| module | file | content |
|---|---|---|
| `Options` | options.dfy | `Option` for Python values that may be `None` |
| `Strings` | strings.dfy | ASCII digits and case, `strip`, `split`, `join`, `replace`, `in`, `int`/`str` |
| `Subsequences` | subseq.dfy | sequences with elements left out, order kept |
| `Pitch` | pitch.dfy | spellings, key ids, semitones, the expected spellings of each key |
| `NoteMapping` | note_mapping.dfy | the dictionary literal and its two lookups |
| `MappingTheorems` | mapping_theorems.dfy | what the dictionary holds, proved from its text |
| `Sounds` | sounds.dfy | the mixer requests and the held list |
| `Keyboard` | keyboard.dfy | key creation order, and the canvas as a list of rectangles |
| `KeyboardWidget` | virtual_keyboard.dfy | the `VirtualKeyboard` class |
| `NoteText` | notes.dfy | `normalize_note`, `switch_dict`, the note-box edit |
| `ChordFinder` | chord_finder.dfy | the note box (`NoteBox` class): `update_chord_name`, `clear_notes` |
| `ChordTable` | chord_table.dfy | rows, filters, the sort and the two views |
| `PartLabels` | part_labels.dfy | `label_consecutive_parts` on a `Part` class |

Conventions of the model:

- **Pitch.** A spelling has a letter, a mark and an octave. The mark is natural, `#`, `-` or `b`; `-` and `b` are both flat.
- **Keys.** `WhN` is the N-th natural upward from A0. `BlN` is one semitone above `WhN`.
- **Canvas.** The canvas is the list of its rectangles. Tk numbers canvas items 1, 2, 3, ... in creation order.
- **Mixer.** The mixer is the list of play and stop requests sent to it. A sound is an abstract value carrying its raw sample data.
- **music21's enharmonic list** is a parameter `library`.
- **Beats** are exact `real`s.
- **`isdigit`, `lower` and `upper`** act on ASCII only.

## Model

| member | source | states |
|---|---|---|
| Pitch.KeyName | frontend/assets/virtual_keyboard.py:89-105 | the key name is `Wh` for a white key or `Bl` for a black one, followed by the decimal text of N |
| Pitch.NameInjective | frontend/assets/virtual_keyboard.py:89-105 | different keys get different names, so `self.keys` has one entry per key |
| Pitch.Text | frontend/assets/virtual_keyboard.py:113-166 | a note name starts with an upper-case letter and ends with an octave digit |
| Pitch.TextInjective | frontend/assets/virtual_keyboard.py:113-166 | different spellings have different note names |
| Pitch.NaturalAt | frontend/assets/virtual_keyboard.py:80-89 | the white key `Wh(Index(l, o))` plays the natural l in octave o |
| Pitch.IndexOfNatural | frontend/assets/virtual_keyboard.py:80-89 | `WhN` is the N-th natural upward from A0, and Index gives N back |
| Pitch.SkippedBlackRule | frontend/assets/virtual_keyboard.py:94-95 | a black position is skipped exactly when the white key below it is a B or an E |
| Pitch.KeyShape | frontend/assets/virtual_keyboard.py:80-107 | every key is the white key of a natural, or the black key above a natural other than B or E |
| Pitch.KeySemitoneRange | frontend/assets/virtual_keyboard.py:80-107 | the keys sound A0 (semitone 9) up to C8 (semitone 96) |
| Pitch.KeySemitoneInjective | frontend/assets/virtual_keyboard.py:80-107 | no two keys sound the same pitch |
| Pitch.ExpectedPitch | frontend/assets/virtual_keyboard.py:113-166 | every spelling expected for a key sounds that key's pitch |
| Pitch.ExpectedFirst | frontend/assets/virtual_keyboard.py:111-112 | a white key is first spelled by its natural; a black key lists the sharp, then the `-` flat |
| Pitch.ExpectedDisjoint | frontend/assets/virtual_keyboard.py:113-166 | no spelling is expected for two different keys |
| Pitch.ExpectedDistinct | frontend/assets/virtual_keyboard.py:113-166 | a key's expected spellings are pairwise different |
| Pitch.KeyOfSpelling | frontend/assets/virtual_keyboard.py:113-166 | every spelling from A0 to C8 is an expected spelling of the key that sounds it |
| NoteMapping.Lookup | frontend/assets/virtual_keyboard.py:168-169 | `dict.get`: None exactly when no item has the name, otherwise the key of an item with that name |
| NoteMapping.NoteToKey | frontend/assets/virtual_keyboard.py:168-169 | `note_to_key` on the dictionary: a key it finds belongs to an item named by the note (NoteToKeySpelling says which key) |
| NoteMapping.NoteFromKey | frontend/assets/virtual_keyboard.py:171-178 | the comprehension and the choice of `get_note_from_key`: None exactly when no item has the key, and without the second-mapping flag the name of the first such item |
| NoteMapping.GetNoteFromKey | frontend/assets/virtual_keyboard.py:171-178 | `get_note_from_key` on the dictionary; GetNoteFromKeySpelling, ClickName and ShiftClickName state what it returns for each key |
| MappingTheorems.Octave1FollowsPattern | frontend/assets/virtual_keyboard.py:120-124 | octave 1 of the literal consists of the four rows of the pattern, for octave 1 |
| MappingTheorems.Octave2FollowsPattern | frontend/assets/virtual_keyboard.py:126-130 | likewise for octave 2 |
| MappingTheorems.Octave3FollowsPattern | frontend/assets/virtual_keyboard.py:132-136 | likewise for octave 3 |
| MappingTheorems.Octave4FollowsPattern | frontend/assets/virtual_keyboard.py:138-142 | likewise for octave 4 |
| MappingTheorems.Octave5FollowsPattern | frontend/assets/virtual_keyboard.py:144-148 | likewise for octave 5, whose `b` flats put Fb last |
| MappingTheorems.Octave6FollowsPattern | frontend/assets/virtual_keyboard.py:150-154 | likewise for octave 6 |
| MappingTheorems.Octave7FollowsPattern | frontend/assets/virtual_keyboard.py:156-160 | likewise for octave 7 |
| MappingTheorems.TableFollowsPattern | frontend/assets/virtual_keyboard.py:113-166 | the dictionary is octave 0, then the patterns for octaves 1 to 7, then octave 8 |
| MappingTheorems.Octave0Content | frontend/assets/virtual_keyboard.py:114-118 | octave 0 gives A0, B0, C1 and the A#0/B-0/Bb0 black key, and nothing else |
| MappingTheorems.Octave8Content | frontend/assets/virtual_keyboard.py:162-165 | octave 8 gives B#7 to Wh52, C-8 and Cb8 to Wh51, and nothing else |
| MappingTheorems.ExpectedOrdered | frontend/assets/virtual_keyboard.py:111-112 | each key's spellings are listed octave group by octave group, C with the octave below and B# with the octave above |
| MappingTheorems.TableSpellings | frontend/assets/virtual_keyboard.py:113-166 | the items of each of the 88 keys are exactly its expected spellings, in expected order |
| MappingTheorems.TableEntry | frontend/assets/virtual_keyboard.py:113-166 | an item pairs a key with one of its expected spellings, and every such pair is an item |
| MappingTheorems.TableKeys | frontend/assets/virtual_keyboard.py:95-166 | every value of the dictionary is one of the 88 generated keys, so none lies on a skipped position |
| MappingTheorems.TableDistinct | frontend/assets/virtual_keyboard.py:113-166 | the literal never repeats a note name |
| MappingTheorems.NoteToKeySpelling | frontend/assets/virtual_keyboard.py:168-169 | `note_to_key` finds a spelling exactly when it lies between A0 and C8, and then gives the key that sounds it |
| MappingTheorems.NoteToKeyFound | frontend/assets/virtual_keyboard.py:168-169 | any key found is one of the 88, and the note names one of its spellings |
| MappingTheorems.GetNoteFromKeySpelling | frontend/assets/virtual_keyboard.py:171-178 | `get_note_from_key` gives the first spelling, or the second when asked and there is one, and None for a key that is not generated |
| MappingTheorems.ClickName | frontend/assets/virtual_keyboard.py:205 | a plain click names a white key by its natural and a black key by the sharp of the white key below (C before B#) |
| MappingTheorems.ShiftClickName | frontend/assets/virtual_keyboard.py:205-208 | a shift-click names a black key by its `-` flat; C keys B#, F keys E#, E keys F-, B keys C-; other white keys keep their natural |
| MappingTheorems.NoteKeyRoundTrip | frontend/assets/virtual_keyboard.py:168-178 | for every key, `note_to_key(get_note_from_key(k, second))` is k |
| Sounds.RawIndex | frontend/assets/virtual_keyboard.py:48-52 | the position of the first held sound with the same raw data, or the length when there is none |
| Sounds.RawIndexUnique | frontend/assets/virtual_keyboard.py:48-52 | that position is the only one with those properties |
| Sounds.SustainPlay | frontend/assets/virtual_keyboard.py:46-59 | the sustain branch's loop, removal, eviction and append: held list HeldAfter and requests SustainEvents |
| Sounds.HeldAfterBounded | frontend/assets/virtual_keyboard.py:54-58 | the held list never exceeds the 8 channels and ends with the sound just played |
| Sounds.HeldAfterKeepsOrder | frontend/assets/virtual_keyboard.py:48-58 | the earlier held sounds are a subsequence of the old list, one shorter exactly when a duplicate was removed |
| Sounds.HeldAfterKeeps | frontend/assets/virtual_keyboard.py:48-58 | every other held sound survives, unless it was the oldest of eight |
| Sounds.HeldAfterDistinct | frontend/assets/virtual_keyboard.py:47-52 | held sounds never share raw data, so the same note is never layered |
| Sounds.PlayNoteSilent | frontend/assets/virtual_keyboard.py:42-44 | a note without a loaded sound changes nothing |
| Sounds.PlayWithoutSustain | frontend/assets/virtual_keyboard.py:61-68 | without sustain only the current sound is replaced, and the held list is untouched |
| Sounds.PlayWithSustain | frontend/assets/virtual_keyboard.py:46-59 | with sustain the current sound is untouched; requests are only appended, and the last one plays the new sound |
| Sounds.HeldAfter | frontend/assets/virtual_keyboard.py:48-58 | the held list after a sustained note is at most one longer and ends with the new sound |
| Sounds.SustainEvents | frontend/assets/virtual_keyboard.py:48-59 | a sustained note sends one to three requests: stop requests, then the play of the new sound last |
| Sounds.PlayNote | frontend/assets/virtual_keyboard.py:41-68 | `play_note_sound` only appends requests to those already sent |
| Sounds.Release | frontend/assets/virtual_keyboard.py:228-230 | releasing the pedal keeps the held list and the current sound and appends stop requests only |
| Sounds.StopAllButLast | frontend/assets/virtual_keyboard.py:229-230 | one stop request for each held sound except the last, in order |
| Sounds.ReleaseStops | frontend/assets/virtual_keyboard.py:228-230 | the release loop issues exactly those stop requests |
| Keyboard.WhiteRunMembers | frontend/assets/virtual_keyboard.py:80-89 | the first loop makes exactly Wh1..Whn |
| Keyboard.BlackRunMembers | frontend/assets/virtual_keyboard.py:94-105 | the second loop makes exactly the `BlN` that are not above a B or an E |
| Keyboard.KeyOrder | frontend/assets/virtual_keyboard.py:80-107 | the white keys, then the black keys, in creation order; KeyOrderMembers and KeyOrderDistinct state which keys and how many |
| Keyboard.KeyOrderMembers | frontend/assets/virtual_keyboard.py:80-107 | the keys made are exactly the 88 keys of the piano |
| Keyboard.SkippedRule | frontend/assets/virtual_keyboard.py:95 | the skip list is the set of B and E positions |
| Keyboard.SkippedCount | frontend/assets/virtual_keyboard.py:95 | 15 of the 51 black positions are skipped |
| Keyboard.KeyOrderDistinct | frontend/assets/virtual_keyboard.py:80-107 | no key is made twice; 52 white and 36 black keys make 88 |
| Keyboard.DrawWhiteKeys | frontend/assets/virtual_keyboard.py:80-91 | the white loop draws Wh1..Wh52 as the next canvas items, in order |
| Keyboard.DrawBlackKeys | frontend/assets/virtual_keyboard.py:94-107 | the black loop appends the 36 black keys as further items, every key numbered by its place |
| Keyboard.DrawKeys | frontend/assets/virtual_keyboard.py:70-107 | `create_keys`: the 88 keys in creation order, each on its own rectangle, tagged `black` exactly when black, each showing its own colour |
| Keyboard.DrawnLayout | frontend/assets/virtual_keyboard.py:70-107 | the keys drawn have different rectangles |
| Keyboard.NoteKeyIsKey | frontend/assets/virtual_keyboard.py:181-184 | a key found for a note is always drawn |
| Keyboard.ResetItems | frontend/assets/virtual_keyboard.py:192-197 | the reset loop gives the result of ResetIds |
| Keyboard.ResetEffect | frontend/assets/virtual_keyboard.py:192-197 | each item showing the highlight colour goes back to black if tagged `black`, white otherwise; tags and other rectangles are unchanged |
| Keyboard.ResetKeys | frontend/assets/virtual_keyboard.py:191-197 | on a laid-out keyboard, a key in the highlight colour takes its own colour back, and nothing else changes |
| Keyboard.HighlightFor | frontend/assets/virtual_keyboard.py:180-188 | `highlight_key` on the canvas; HighlightEffect states its effect |
| Keyboard.ResetIds | frontend/assets/virtual_keyboard.py:191-197 | `reset_all_keys` over the given items, in order; ResetEffect states its effect |
| Keyboard.HighlightEffect | frontend/assets/virtual_keyboard.py:180-188 | a note that names a key repaints that key's rectangle alone; any other note changes nothing |
| Keyboard.HighlightRepaints | frontend/assets/virtual_keyboard.py:180-188 | highlighting changes at most the fill of one rectangle |
| Keyboard.ResetRestores | frontend/assets/virtual_keyboard.py:191-197 | resetting undoes a repaint of rectangles that showed their own colour |
| Keyboard.HighlightThenReset | frontend/assets/virtual_keyboard.py:180-197 | highlighting a key and then resetting all keys restores the canvas, when every key showed its own colour |
| Keyboard.HighlightKeepsDrawn | frontend/assets/virtual_keyboard.py:180-188 | highlighting keeps the layout drawn |
| Keyboard.ResetKeepsDrawn | frontend/assets/virtual_keyboard.py:191-197 | resetting keeps the layout drawn |
| Keyboard.KeyAt | frontend/assets/virtual_keyboard.py:201-203 | the key whose item was clicked, or None when no key's item matches |
| Keyboard.KeyAtItem | frontend/assets/virtual_keyboard.py:201-203 | on a laid-out keyboard a key is found exactly when the item is a key's, and it is that key |
| KeyboardWidget.LoadedSounds | frontend/assets/virtual_keyboard.py:25-39 | one sound for each dictionary note whose file loads, and only for those |
| KeyboardWidget.VirtualKeyboard.constructor | frontend/assets/virtual_keyboard.py:6-23 | the dictionary, the 88 keys drawn on a fresh canvas, the settings, no held or current sound, no clicked note |
| KeyboardWidget.VirtualKeyboard.CreateKeys | frontend/assets/virtual_keyboard.py:70-107 | `self.keys` is rebuilt for the 88 keys, drawn after what the canvas held |
| KeyboardWidget.VirtualKeyboard.PlayNoteSound | frontend/assets/virtual_keyboard.py:41-68 | the sound state becomes PlayNote of the old one, and held sounds stay distinct and within 8 |
| KeyboardWidget.VirtualKeyboard.ToggleSustain | frontend/assets/virtual_keyboard.py:224-230 | sets the pedal; a release stops every held sound except the last and keeps the list |
| KeyboardWidget.VirtualKeyboard.HighlightKey | frontend/assets/virtual_keyboard.py:180-188 | the canvas becomes HighlightFor of the key the note names, in the current colour |
| KeyboardWidget.VirtualKeyboard.ResetAllKeys | frontend/assets/virtual_keyboard.py:191-197 | the canvas becomes ResetIds over the items of all keys |
| KeyboardWidget.VirtualKeyboard.KeyClickHandler | frontend/assets/virtual_keyboard.py:199-219 | on a key: remembers its first (or, with shift, second) name and plays it in free play or if sound is on and the key is not highlighted; notifies outside free play. Elsewhere: nothing changes |
| KeyboardWidget.VirtualKeyboard.ScanKeys | frontend/assets/virtual_keyboard.py:202-219 | the loop over `self.keys` acts for the one key drawn on the item, and only that key |
| KeyboardWidget.VirtualKeyboard.ClickKey | frontend/assets/virtual_keyboard.py:204-219 | the loop body for the matching key: its name, the sound played, the callback flag |
| KeyboardWidget.VirtualKeyboard.ToggleSound | frontend/assets/virtual_keyboard.py:221-222 | sets `sound` |
| KeyboardWidget.VirtualKeyboard.ToggleFreePlay | frontend/assets/virtual_keyboard.py:232-233 | sets `free_play` |
| KeyboardWidget.VirtualKeyboard.SetColour | frontend/assets/virtual_keyboard.py:235-236 | sets the highlight colour |
| KeyboardWidget.ClickedOnly | frontend/assets/virtual_keyboard.py:202-203 | on a drawn keyboard the key found is the only one drawn on that item, and the item is a canvas rectangle |
| NoteText.Capitalize | frontend/music_analyzer.py:498 | only a lower-case first letter is upper-cased; every other character is kept |
| NoteText.NormalizeNote | frontend/music_analyzer.py:496-511 | the result ends in a digit; with a digit it ends with the first digit run and its other characters are the non-digits of the capitalised note, in order; without one it is the capitalised note followed by 4 |
| NoteText.NormalizeOneRun | frontend/music_analyzer.py:496-511 | a note whose digits form one run becomes its capitalised text before the run, its text after the run, then the run |
| NoteText.NormalizeFirst | frontend/music_analyzer.py:498-505 | a note not starting with a digit keeps its first character, capitalised |
| NoteText.NormalizeSpelling | frontend/music_analyzer.py:496-511 | the names the keyboard produces are already normal |
| NoteText.NormalizeMovesOctave | frontend/music_analyzer.py:500-505 | `c4#` becomes `C#4` |
| NoteText.NormalizeDefaultOctave | frontend/music_analyzer.py:507-509 | `e` becomes `E4` |
| NoteText.NormalizeLetterAfterDigit | frontend/music_analyzer.py:498-505 | `4c` becomes `c4`, because only a letter in first place is capitalised |
| NoteText.SwitchEdge | frontend/music_analyzer.py:522-533 | item i of `switch_dict`; SwitchSameSemitone and SwitchKeysDistinct state its properties |
| NoteText.EdgeMatches | frontend/music_analyzer.py:536-538 | the keys of the items whose list holds the note, in table order: at most one per item; EdgeMatchesMembers states which |
| NoteText.Equivalents | frontend/music_analyzer.py:514-543 | the list `get_equivalent_notes` returns: at most twelve switch keys, then the library's spellings last, in the order given; MatchesEnharmonic states what the added keys are |
| NoteText.SwitchTable | frontend/music_analyzer.py:521-534 | `switch_dict` has twelve items |
| NoteText.SwitchKeysDistinct | frontend/music_analyzer.py:521-534 | its twelve keys are different texts, so the dictionary keeps all twelve in order |
| NoteText.SwitchSameSemitone | frontend/music_analyzer.py:521-534 | every key spells the same pitch as each name it lists |
| NoteText.EquivalentNotes | frontend/music_analyzer.py:514-543 | the switch keys listing the note, in table order, then the library's spellings |
| NoteText.MatchingKeys | frontend/music_analyzer.py:536-538 | the first loop gives EdgeMatches |
| NoteText.AppendSpellings | frontend/music_analyzer.py:540-541 | the second loop appends the library list |
| NoteText.EdgeMatchesMembers | frontend/music_analyzer.py:536-538 | a key is added exactly when its list holds the note |
| NoteText.MatchesEnharmonic | frontend/music_analyzer.py:520-538 | each added key is listed for the note and spells the same pitch |
| NoteText.Entries | frontend/music_analyzer.py:440 | the parse of the note box; EntriesClean, EntriesJoin and ToggleTextEntries state its properties |
| NoteText.Kept | frontend/music_analyzer.py:446-449 | the comprehension that drops entries; KeptMembers, KeptSubseq and KeptLength state which are kept |
| NoteText.ToggleList | frontend/music_analyzer.py:446-453 | the entry list after a click; ToggleEffect and ToggleTwice state its effect |
| NoteText.ToggleText | frontend/music_analyzer.py:440-455 | the new note-box text for given equivalents; ToggleTextEntries, ToggleTextAdds, ToggleTextStripped and ToggleTextTwice state its properties |
| NoteText.ToggledText | frontend/music_analyzer.py:440-455 | ToggleText with the equivalents `get_equivalent_notes` gives |
| NoteText.RemoveSet | frontend/music_analyzer.py:443 | `all_notes_to_remove` is the clicked note together with its equivalents |
| NoteText.KeptMembers | frontend/music_analyzer.py:446-449 | an entry is kept exactly when its normal form is not to be removed |
| NoteText.KeptSubseq | frontend/music_analyzer.py:446-449 | the kept entries keep their order |
| NoteText.KeptLength | frontend/music_analyzer.py:446-452 | the length test is true exactly when nothing was removed, and then the list is unchanged |
| NoteText.ToggleEffect | frontend/music_analyzer.py:440-455 | the clicked note is appended exactly when nothing was removed; otherwise every matching entry goes and nothing is added |
| NoteText.ToggleTwice | frontend/music_analyzer.py:440-455 | two clicks on the same note give the entry list back |
| NoteText.EntriesClean | frontend/music_analyzer.py:440 | entries are non-empty, stripped and comma-free |
| NoteText.EntriesJoin | frontend/music_analyzer.py:455-460 | the parse of the joined text gives the edited list back |
| NoteText.ToggleTextEntries | frontend/music_analyzer.py:440-460 | the re-parse on line 460 sees the toggled list |
| NoteText.ToggleTextAdds | frontend/music_analyzer.py:440-460 | a click that removes nothing leaves the old entries plus the clicked note |
| NoteText.ToggleTextStripped | frontend/music_analyzer.py:455-458 | the new text has no white space at either end |
| NoteText.ToggleTextTwice | frontend/music_analyzer.py:434-458 | two clicks give back the old entries, written `, `-separated |
| NoteText.SpellingClicks | frontend/music_analyzer.py:437-442 | names from the keyboard contain a digit, are clean and are normal |
| ChordFinder.NoteBox.constructor | frontend/music_analyzer.py:432-437 | an empty note box with the free-play setting |
| ChordFinder.NoteBox.KeepEntries | frontend/music_analyzer.py:446-449 | the comprehension keeps exactly Kept |
| ChordFinder.NoteBox.ToggleNotes | frontend/music_analyzer.py:440-455 | the toggled list, joined with `, ` |
| ChordFinder.NoteBox.UpdateChordName | frontend/music_analyzer.py:432-461 | after a click outside free play the box holds the toggled text, otherwise it is kept; the note set is the box's entries |
| ChordFinder.NoteBox.ClearNotes | frontend/music_analyzer.py:425-430 | the box is emptied and no note is left |
| ChordFinder.ClickTwice | frontend/music_analyzer.py:432-458 | a new note's click adds it; a second click restores the old entries |
| ChordTable.Matches | frontend/music_analyzer.py:236-242 | the comprehension's condition; FilterMembers, BadBoundsRejectRow, MeasureRange and FilterIgnoresCase state its properties |
| ChordTable.FilterRows | frontend/music_analyzer.py:236-243 | `apply_filters_helper`: never more rows than the data, and every row shown matches |
| ChordTable.FilterMembers | frontend/music_analyzer.py:236-242 | a row is shown exactly when it is in the data and matches every filter |
| ChordTable.FilterSubseq | frontend/music_analyzer.py:236-243 | the filter returns a subsequence of its input, in order |
| ChordTable.FilterCount | frontend/music_analyzer.py:236-242 | each matching row is kept as often as it occurs |
| ChordTable.NoFiltersShowAll | frontend/music_analyzer.py:236-242 | with every entry empty all rows are shown |
| ChordTable.BadBoundShowsNothing | frontend/music_analyzer.py:238 | a non-empty, non-digit measure-from text hides every row |
| ChordTable.BadBoundsRejectRow | frontend/music_analyzer.py:238-241 | a non-empty, non-digit text in any of the four bounds rejects the row |
| ChordTable.MeasureRange | frontend/music_analyzer.py:238-239 | the measure bounds are inclusive |
| ChordTable.FilterIgnoresCase | frontend/music_analyzer.py:229-242 | the part and chord tests ignore case on both sides |
| ChordTable.LowerTwice | frontend/music_analyzer.py:229-234 | lower-casing is idempotent |
| ChordTable.FilterLowered | frontend/music_analyzer.py:229-242 | a part or chord filter typed in capitals shows the same rows as the same filter in lower case |
| ChordTable.Insert | frontend/music_analyzer.py:223 | one insertion step of the sort: one row more |
| ChordTable.SortRows | frontend/music_analyzer.py:223 | `sorted` by (measure, beat): as many rows as the data |
| ChordTable.InsertCount | frontend/music_analyzer.py:223 | an insertion adds the row once |
| ChordTable.InsertSorted | frontend/music_analyzer.py:223 | an insertion keeps the list sorted |
| ChordTable.SortRowsSorted | frontend/music_analyzer.py:223 | the sort orders rows by (measure, beat) and is a permutation |
| ChordTable.SortRowsStable | frontend/music_analyzer.py:223 | rows with equal keys keep their load order |
| ChordTable.FilterKeepsSorted | frontend/music_analyzer.py:223-225 | filtering a sorted list leaves it sorted |
| ChordTable.FilterWithKey | frontend/music_analyzer.py:223-225 | filtering and picking the rows of one key commute |
| ChordTable.ApplyFilters | frontend/music_analyzer.py:215-226 | a table is shown exactly for the two views, never with more rows than the data; any other value leaves the table as it was |
| ChordTable.MeasureViewSorts | frontend/music_analyzer.py:215-226 | "By Measure and Beat" shows the rows of "By Instrument", each as often, sorted, equal keys in load order |
| PartLabels.Part.constructor | backend/chord_extractor.py:32 | a part with its part name |
| PartLabels.Show | backend/chord_extractor.py:40-43 | the f-string rendering of a part name, `None` for a missing one |
| PartLabels.Text | backend/chord_extractor.py:40-45 | the text of a label as written into the map |
| PartLabels.SaysBass | backend/chord_extractor.py:39 | `'Bass Clef' in label`; MarkInContains states it is the substring test |
| PartLabels.OwnLabel | backend/chord_extractor.py:45 | `name or "Unknown Part"`: never empty, and the name itself when it is non-empty |
| PartLabels.MarkInContains | backend/chord_extractor.py:39 | the scan for "Bass Clef" is Python's substring test |
| PartLabels.Labels | backend/chord_extractor.py:35-45 | one label per part |
| PartLabels.Next | backend/chord_extractor.py:36-45 | one loop step adds exactly one label |
| PartLabels.RunStart | backend/chord_extractor.py:38 | where the run of equal names through j begins |
| PartLabels.LabelsByRun | backend/chord_extractor.py:35-45 | for names without "Bass Clef": a lone part keeps its name; a run goes Treble, Bass, ..., and an odd run ends in Additional |
| PartLabels.StepSame | backend/chord_extractor.py:38-43 | a repeated name after a Bass Clef is Additional; otherwise the two become Treble and Bass |
| PartLabels.StepAlone | backend/chord_extractor.py:44-45 | a part not repeating its predecessor's name keeps its own label |
| PartLabels.StepAdditional | backend/chord_extractor.py:42-43 | the 3rd, 5th, ... part of a run becomes Additional |
| PartLabels.StepPair | backend/chord_extractor.py:39-41 | a repeated name after Treble, Additional or its own name makes a Treble/Bass pair |
| PartLabels.SameAfterBass | backend/chord_extractor.py:39-43 | after a Bass Clef at an odd offset, the new part is Additional |
| PartLabels.SameAfterOther | backend/chord_extractor.py:39-41 | otherwise the predecessor is relabelled Treble and the new part is Bass |
| PartLabels.LoneKeepsName | backend/chord_extractor.py:44-45 | a part differing from both neighbours keeps its name ("Unknown Part" for None or "") |
| PartLabels.TwoStaves | backend/chord_extractor.py:38-41 | two equal names give "x (Treble Clef)" and "x (Bass Clef)"; for None these read "None (...)" |
| PartLabels.BassNamedStaves | backend/chord_extractor.py:39-43 | equal names already holding "Bass Clef" give the own name, then Additional |
| PartLabels.LabelsStep | backend/chord_extractor.py:35-45 | Labels of one more name is one loop step on the earlier labels, comparing original names |
| PartLabels.CollectLabels | backend/chord_extractor.py:33-45 | the first loop gives every part a label, and it is Labels of the names; the predecessor is always in the map, so the `len(part_labels) == 0` test never decides |
| PartLabels.WriteLabels | backend/chord_extractor.py:47-48 | each part's name becomes its label, or "Unknown Part" when the map has none |
| PartLabels.LabelConsecutiveParts | backend/chord_extractor.py:32-48 | every part's name becomes its label as Labels gives it for the original names; the "Unknown Part" default is never taken |
| Strings.TrimLeftCutsSpace | frontend/music_analyzer.py:440 | `strip` cuts only white space at the front |
| Strings.TrimRightCutsSpace | frontend/music_analyzer.py:440 | `strip` cuts only white space at the back |
| Strings.Lower | frontend/music_analyzer.py:229-234 | `lower()`: the same length, and each character lower-cased |
| Strings.Strip | frontend/music_analyzer.py:434 | `strip()`: the result occurs in the text and has no white space at either end |
| Strings.StripCutsSpace | frontend/music_analyzer.py:434 | everything before and after the result in the text is white space, so only white space is cut |
| Strings.Split | frontend/music_analyzer.py:440 | `split(',')`: at least one piece, and no piece holds the separator |
| Strings.Join | frontend/music_analyzer.py:455 | `', '.join`; JoinSplit states that it undoes a split |
| Strings.RemoveAll | frontend/music_analyzer.py:504 | `replace(run, '')`: never longer than the text |
| Strings.RemoveAllAbsent | frontend/music_analyzer.py:504 | a pattern that does not occur leaves the text unchanged |
| Strings.RemoveAllSubseq | frontend/music_analyzer.py:504 | the result is the text with characters left out, order kept |
| Strings.RemoveAllNonDigits | frontend/music_analyzer.py:504 | removing a run of digits takes away digits only |
| Strings.JoinSplit | frontend/music_analyzer.py:440-455 | joining the pieces of a split with the separator gives the text back |
| Strings.FirstDigitRun | frontend/music_analyzer.py:502 | `re.search(r'(\d+)')`: a non-empty run of digits standing in the text with no digit before it and no digit right after it, so the leftmost maximal run |
| Strings.DigitsCanonical | frontend/music_analyzer.py:523-532 | `str(int(o))` gives back a digit text without a leading zero |
| Strings.NatTextValue | frontend/music_analyzer.py:523-532 | `int(str(n)) == n` |

## Left out

- The music21 library is not modelled. This covers `pitch.Pitch`, `getAllCommonEnharmonics` (an input list `library`), `simplifyEnharmonic`, and chord and key naming (`get_chord_name`, backend/find_chord.py). The program only calls these.
- UpdateChordName: the chord name, relation and diatonic displays, and the reset and re-highlighting of the keyboard after the edit (lines 463-494), are not modelled, because each step is a library call or drawing. The method returns the note set those steps receive.
- ClearNotes: the `winfo_exists` guard is left out. The reset of the keys and of `last_clicked_note` is left to KeyboardWidget (ResetAllKeys; the field is set by KeyClickHandler), since the note box and the keyboard are separate classes here.
- Score parsing (`get_score_parts`, `extract_chords`, `load_file`) is left out: it is file I/O through music21. The rows reach the model as a list.
- `update_table`, the part display `partName or "Unknown Part"` and the Tk tree are left out: they are display only.
- Tk and customtkinter widgets, windows, event binding and rectangle geometry are left out. `find_closest` reaches the model as the clicked item number. `key_click_state` is written and never read.
- pygame mixer setup, sound files and `_MEIPASS` paths are left out. The sounds a file load yields enter as the `loaded` map, and play and stop are requests in a list.
- Shelve preferences, `main.py`, dark mode, the persistent key and the other window toggles are left out: they only store settings.
- The `update_chord_callback` wiring is not modelled. KeyClickHandler returns whether the callback would run.
- Calls whose arguments do not match the callee are left out: `get_chord_name` with extra arguments, the keyboard built without a colour, and `highlight_key(..., highlight=False)` with an unbound colour. The model follows each callee's own definition.
- EquivalentNotes requires a note with a digit. `re.search(...).group(0)` fails on anything else, so that path raises in the source.
- LabelConsecutiveParts requires distinct part objects, as a score's part list has. A list repeating one object is not modelled.
- Beat offsets are exact rationals, not floats. `isdigit`, `lower` and `upper` are ASCII only. Python's Unicode digits and case mappings are not modelled.
- NormalizeNote leaves out the no-op substitution of `(\d*)$` by itself on line 501.
