/**
 * The note texts of the analyzer window: normalize_note, the spellings
 * get_equivalent_notes adds when a spelling crosses an octave boundary,
 * and the edit a keyboard click makes to the comma-separated note list.
 *
 * music21's own enharmonic spellings (getAllCommonEnharmonics) are not
 * computed here; they reach the model as a list of note names.
 */
module NoteText {
  import opened Strings
  import opened Pitch
  import opened Subsequences

  // ------------------------------------------------------------ normalize_note

  /** `re.sub(r'^([a-z])', upper, s)`: a lowercase ASCII first letter becomes uppercase, nothing else changes. */
  function Capitalize(s: string): (r: string)
    ensures |r| == |s|
    ensures s != [] ==> r[0] == ToUpper(s[0])
    ensures forall i :: 1 <= i < |s| ==> r[i] == s[i]
  {
    if s != [] && IsLower(s[0]) then [ToUpper(s[0])] + s[1..] else s
  }

  /**
   * normalize_note.  The first run of digits is the octave: every
   * occurrence of it is deleted and it is written once at the end.  A note
   * without digits gets octave 4.  (The substitution of `(\d*)$` by itself
   * changes nothing and is left out.)
   */
  function NormalizeNote(s: string): (r: string)
    ensures |r| > 0 && IsDigit(r[|r| - 1])
    ensures HasDigit(s) ==> EndsWith(r, FirstDigitRun(s))
    ensures !HasDigit(s) ==> r == Capitalize(s) + "4"
    ensures HasDigit(s) ==> NonDigits(r) == NonDigits(Capitalize(s))
  {
    if HasDigit(s) then
      var run := FirstDigitRun(s);
      var kept := RemoveAll(Capitalize(s), run);
      RemoveAllNonDigits(Capitalize(s), run);
      NonDigitsAppend(kept, run);
      NonDigitsOf(run);
      kept + run
    else Capitalize(s) + "4"
  }

  /** t is the last |t| characters of s. */
  predicate EndsWith(s: string, t: string)
  {
    |t| <= |s| && s[|s| - |t|..] == t
  }

  /** A note that does not start with a digit keeps its first character, capitalised. */
  lemma NormalizeFirst(s: string)
    requires s != [] && !IsDigit(s[0])
    ensures NormalizeNote(s)[0] == ToUpper(s[0])
  {
    if HasDigit(s) {
      var run := FirstDigitRun(s);
      RemoveAllHead(Capitalize(s), run);
    }
  }

  /** Removing a pattern that does not start with the first character keeps that character in front. */
  lemma RemoveAllHead(x: string, p: string)
    requires x != [] && p != [] && x[0] != p[0]
    ensures RemoveAll(x, p) != [] && RemoveAll(x, p)[0] == x[0]
  {
  }

  /**
   * A note whose digits form a single run: the characters before and after
   * the run keep their order, and the run is written once at the end.
   */
  lemma NormalizeOneRun(head: string, digits: string, tail: string)
    requires !HasDigit(head) && IsDigits(digits) && !HasDigit(tail)
    ensures NormalizeNote(head + digits + tail) == Capitalize(head) + tail + digits
    ensures NormalizeNote(head + digits + tail) == NonDigits(Capitalize(head + digits + tail)) + digits
  {
    OneRunOctave(head, digits, tail);
    OneRunCapitalize(head, digits, tail);
    OneRunRemove(Capitalize(head), digits, tail);
  }

  /** Capitalising such a note capitalises its head and adds no digit. */
  lemma OneRunCapitalize(head: string, digits: string, tail: string)
    requires !HasDigit(head) && IsDigits(digits)
    ensures Capitalize(head + digits + tail) == Capitalize(head) + digits + tail
    ensures !HasDigit(Capitalize(head))
  {
    assert IsDigit(digits[0]);
    CapitalizeAppend(head, digits + tail);
    assert head + digits + tail == head + (digits + tail);
    CapitalizeNoDigit(head);
  }

  /** Capitalising adds no digit. */
  lemma CapitalizeNoDigit(s: string)
    requires !HasDigit(s)
    ensures !HasDigit(Capitalize(s))
  {
    var c := Capitalize(s);
    forall i | 0 <= i < |c|
      ensures !IsDigit(c[i])
    {
      assert i == 0 || c[i] == s[i];
    }
  }

  /** The octave of such a note is its run of digits. */
  lemma OneRunOctave(head: string, digits: string, tail: string)
    requires !HasDigit(head) && IsDigits(digits) && !HasDigit(tail)
    ensures HasDigit(head + digits + tail) && FirstDigitRun(head + digits + tail) == digits
  {
    var s := head + digits + tail;
    assert s == head + (digits + tail);
    FirstDigitAfter(head, digits + tail);
    DigitPrefixRun(digits, tail);
    assert s[|head|..] == digits + tail;
    assert s[|head|..|head| + |digits|] == digits;
  }

  /** Removing the run from such a note, and leaving out its digits, both give the rest of it. */
  lemma OneRunRemove(ch: string, digits: string, tail: string)
    requires !HasDigit(ch) && IsDigits(digits) && !HasDigit(tail)
    ensures RemoveAll(ch + digits + tail, digits) == ch + tail
    ensures NonDigits(ch + digits + tail) == ch + tail
  {
    assert ch + digits + tail == ch + (digits + tail);
    OneRunRemoveAll(ch, digits, tail);
    OneRunNonDigits(ch, digits, tail);
  }

  lemma OneRunRemoveAll(ch: string, digits: string, tail: string)
    requires !HasDigit(ch) && IsDigits(digits) && !HasDigit(tail)
    ensures RemoveAll(ch + (digits + tail), digits) == ch + tail
  {
    RemoveAllSkip(ch, digits + tail, digits);
    assert (digits + tail)[..|digits|] == digits && (digits + tail)[|digits|..] == tail;
    RemoveAllSkip(tail, [], digits);
    assert tail + [] == tail;
  }

  lemma OneRunNonDigits(ch: string, digits: string, tail: string)
    requires !HasDigit(ch) && IsDigits(digits) && !HasDigit(tail)
    ensures NonDigits(ch + (digits + tail)) == ch + tail
  {
    calc {
      NonDigits(ch + (digits + tail));
      == { NonDigitsAppend(ch, digits + tail); }
      NonDigits(ch) + NonDigits(digits + tail);
      == { NonDigitsAppend(digits, tail); }
      NonDigits(ch) + (NonDigits(digits) + NonDigits(tail));
      == { NonDigitsOf(ch); NonDigitsOf(digits); NonDigitsOf(tail); }
      ch + ([] + tail);
    }
    assert [] + tail == tail;
  }

  /** Capitalising looks at the first character only. */
  lemma CapitalizeAppend(a: string, b: string)
    requires a != [] || b == [] || !IsLower(b[0])
    ensures Capitalize(a + b) == Capitalize(a) + b
  {
    if a != [] {
      assert (a + b)[0] == a[0] && (a + b)[1..] == a[1..] + b;
    } else {
      assert a + b == b;
    }
  }

  /** The names the keyboard produces, such as "C#4" or "B-0", are already normal. */
  lemma NormalizeSpelling(sp: Spelling)
    ensures NormalizeNote(Text(sp)) == Text(sp)
  {
    var head := [LetterChar(sp.letter)] + MarkText(sp.mark);
    var digits := NatText(sp.octave);
    assert Text(sp) == head + digits + [];
    SpellingHead(sp, head);
    NormalizeOneRun(head, digits, []);
    assert head + [] + digits == Text(sp);
  }

  /** The letter and accidental of a keyboard name hold no digit and nothing to capitalise. */
  lemma SpellingHead(sp: Spelling, head: string)
    requires head == [LetterChar(sp.letter)] + MarkText(sp.mark)
    ensures !HasDigit(head) && Capitalize(head) == head
  {
    forall i | 0 <= i < |head|
      ensures !IsDigit(head[i])
    {
      assert i == 0 || MarkText(sp.mark) != [];
    }
  }

  /** In a text whose digit-free head is followed by a digit, the first digit follows the head. */
  lemma FirstDigitAfter(head: string, rest: string)
    requires !HasDigit(head) && rest != [] && IsDigit(rest[0])
    ensures HasDigit(head + rest) && FirstDigit(head + rest) == |head|
  {
    var t := head + rest;
    assert IsDigit(t[|head|]);
    assert forall j :: 0 <= j < |head| ==> t[j] == head[j];
  }

  /** The digits in front of a text that goes on with a non-digit are all counted. */
  lemma {:induction false} DigitPrefixRun(digits: string, tail: string)
    requires AllDigits(digits) && (tail == [] || !IsDigit(tail[0]))
    ensures DigitPrefix(digits + tail) == |digits|
  {
    if digits != [] {
      assert (digits + tail)[1..] == digits[1..] + tail;
      DigitPrefixRun(digits[1..], tail);
    } else {
      assert digits + tail == tail;
    }
  }

  /** normalize_note on the example of its comment: the octave moves to the end. */
  lemma NormalizeMovesOctave()
    ensures NormalizeNote("c4#") == "C#4"
  {
    var s := "c4#";
    assert IsDigit(s[1]);
    assert FirstDigit(s) == 1 by { assert !IsDigit(s[0]); }
    assert s[1..] == "4#";
    assert DigitPrefix("4#") == 1 by { assert "4#"[1..] == "#"; }
    assert FirstDigitRun(s) == "4";
    var c := Capitalize(s);
    assert c == "C4#";
    assert RemoveAll("#", "4") == "#" by {
      assert "#"[..1] != "4" && "#"[1..] == "";
    }
    assert RemoveAll("4#", "4") == "#" by {
      assert "4#"[..1] == "4" && "4#"[1..] == "#";
    }
    assert RemoveAll(c, "4") == "C#" by {
      assert c[..1] != "4" && c[1..] == "4#";
    }
  }

  /** A note without an octave is taken to be in octave 4. */
  lemma NormalizeDefaultOctave()
    ensures NormalizeNote("e") == "E4"
  {
    assert !HasDigit("e");
  }

  /** Only a letter in first place is capitalised. */
  lemma NormalizeLetterAfterDigit()
    ensures NormalizeNote("4c") == "c4"
  {
    var s := "4c";
    assert IsDigit(s[0]);
    assert DigitPrefix(s) == 1 by { assert s[1..] == "c"; }
    assert FirstDigitRun(s) == "4";
    assert Capitalize(s) == s;
    assert RemoveAll("c", "4") == "c" by {
      assert "c"[..1] != "4" && "c"[1..] == "";
    }
    assert RemoveAll(s, "4") == "c" by {
      assert s[..1] == "4" && s[1..] == "c";
    }
  }

  // ------------------------------------------------------- get_equivalent_notes

  /** An accidental as switch_dict writes it: a sign ('#', '-' or 'b') repeated some number of times. */
  datatype Accidental = Acc(sign: char, count: nat)

  function AccText(a: Accidental): (t: string)
    ensures |t| == a.count && forall i :: 0 <= i < |t| ==> t[i] == a.sign
  {
    seq(a.count, _ => a.sign)
  }

  /** A note name as switch_dict writes it: a letter, its accidental and the octave text. */
  datatype NoteName = NoteName(letter: Letter, acc: Accidental, octave: string)

  function NameText(n: NoteName): string
  {
    [LetterChar(n.letter)] + AccText(n.acc) + n.octave
  }

  /** One item of switch_dict: a spelling and the names it is listed for. */
  datatype Edge = Edge(key: NoteName, names: seq<NoteName>)

  /**
   * switch_dict for the octave text o, in insertion order.  The octaves
   * next to o are written as str(int(o) - 1) and str(int(o) + 1).
   */
  function SwitchTable(o: string): (t: seq<Edge>)
    ensures |t| == 12
  {
    var v: int := DigitsValue(o);
    seq(12, i requires 0 <= i < 12 => SwitchEdge(o, IntText(v - 1), IntText(v + 1), i))
  }

  /** Item i of switch_dict, with below and above the texts of the octaves next to o. */
  function SwitchEdge(o: string, below: string, above: string, i: nat): Edge
    requires i < 12
  {
    var natural := Acc('#', 0);
    match i
    case 0 => Edge(NoteName(C, Acc('#', 4), o), [NoteName(F, Acc('-', 1), o)])
    case 1 => Edge(NoteName(G, Acc('#', 4), below), [NoteName(C, Acc('-', 1), o)])
    case 2 => Edge(NoteName(E, Acc('-', 4), above), [NoteName(B, Acc('#', 1), o)])
    case 3 => Edge(NoteName(A, Acc('-', 4), o), [NoteName(E, Acc('#', 1), o)])
    case 4 => Edge(NoteName(G, Acc('b', 1), o), [NoteName(G, Acc('-', 1), o), NoteName(F, Acc('#', 1), o)])
    case 5 => Edge(NoteName(A, Acc('b', 1), o), [NoteName(A, Acc('-', 1), o), NoteName(G, Acc('#', 1), o)])
    case 6 => Edge(NoteName(B, Acc('b', 1), o), [NoteName(B, Acc('-', 1), o), NoteName(A, Acc('#', 1), o)])
    case 7 => Edge(NoteName(E, Acc('b', 1), o), [NoteName(E, Acc('-', 1), o), NoteName(D, Acc('#', 1), o)])
    case 8 => Edge(NoteName(D, Acc('b', 1), o), [NoteName(D, Acc('-', 1), o), NoteName(C, Acc('#', 1), o)])
    case 9 => Edge(NoteName(C, Acc('b', 1), o), [NoteName(C, Acc('-', 1), o)])
    case 10 => Edge(NoteName(C, Acc('b', 1), above), [NoteName(B, natural, o)])
    case 11 => Edge(NoteName(F, Acc('b', 1), o), [NoteName(F, Acc('-', 1), o), NoteName(E, natural, o)])
  }

  /** The texts of a list of names. */
  function Texts(ns: seq<NoteName>): (ts: seq<string>)
    ensures |ts| == |ns|
    ensures forall i :: 0 <= i < |ns| ==> ts[i] == NameText(ns[i])
  {
    seq(|ns|, i requires 0 <= i < |ns| => NameText(ns[i]))
  }

  /** The keys, in table order, of the items whose list holds the note. */
  function EdgeMatches(note: string, table: seq<Edge>): (keys: seq<string>)
    ensures |keys| <= |table|
  {
    if table == [] then []
    else
      var last := table[|table| - 1];
      EdgeMatches(note, table[..|table| - 1]) + (if note in Texts(last.names) then [NameText(last.key)] else [])
  }

  /** The list get_equivalent_notes returns. */
  function Equivalents(note: string, library: seq<string>): (r: seq<string>)
    requires HasDigit(note)
    ensures |library| <= |r| <= 12 + |library|
    ensures r[|r| - |library|..] == library
  {
    EdgeMatches(note, SwitchTable(FirstDigitRun(note))) + library
  }

  /**
   * get_equivalent_notes(note): the switch_dict keys listing the note,
   * then the library's spellings in the order given.  The octave is the
   * first digit run of the note; a note without one makes the source fail.
   */
  method EquivalentNotes(note: string, library: seq<string>) returns (equivalents: seq<string>)
    requires HasDigit(note)
    ensures equivalents == Equivalents(note, library)
  {
    var table := SwitchTable(FirstDigitRun(note));
    var keys := MatchingKeys(note, table);
    equivalents := AppendSpellings(keys, library);
  }

  /** The loop over possible_spellings: each spelling appended in turn. */
  method AppendSpellings(notes: seq<string>, library: seq<string>) returns (all: seq<string>)
    ensures all == notes + library
  {
    all := notes;
    for i := 0 to |library|
      invariant all == notes + library[..i]
    {
      assert library[..i + 1] == library[..i] + [library[i]];
      all := all + [library[i]];
    }
    assert library[..|library|] == library;
  }

  /** The loop over switch_dict.items(): the key of every item whose list holds the note. */
  method MatchingKeys(note: string, table: seq<Edge>) returns (keys: seq<string>)
    ensures keys == EdgeMatches(note, table)
  {
    keys := [];
    for i := 0 to |table|
      invariant keys == EdgeMatches(note, table[..i])
    {
      EdgeMatchesSnoc(note, table, i);
      if note in Texts(table[i].names) {
        keys := keys + [NameText(table[i].key)];
      }
    }
    assert table[..|table|] == table;
  }

  /** The matches of a table prefix grown by one item. */
  lemma EdgeMatchesSnoc(note: string, table: seq<Edge>, i: nat)
    requires i < |table|
    ensures EdgeMatches(note, table[..i + 1])
      == EdgeMatches(note, table[..i]) + (if note in Texts(table[i].names) then [NameText(table[i].key)] else [])
  {
    assert table[..i + 1][..i] == table[..i];
  }

  /** The keys of the table whose list holds the note are the matches, and only they. */
  lemma {:induction false} EdgeMatchesMembers(note: string, table: seq<Edge>)
    ensures forall t :: t in EdgeMatches(note, table) <==> exists e :: e in table && note in Texts(e.names) && t == NameText(e.key)
  {
    if table != [] {
      var init := table[..|table| - 1];
      var last := table[|table| - 1];
      EdgeMatchesMembers(note, init);
      assert table == init + [last];
      forall t | t in EdgeMatches(note, table)
        ensures exists e :: e in table && note in Texts(e.names) && t == NameText(e.key)
      {
        if t !in EdgeMatches(note, init) {
          assert note in Texts(last.names) && t == NameText(last.key);
        }
      }
    }
  }

  // ------------------------------------------------------------------ semitones

  /** What one accidental sign does: '#' raises by a semitone, '-' and 'b' lower by one. */
  function SignValue(c: char): int
  {
    if c == '#' then 1 else if c == '-' || c == 'b' then -1 else 0
  }

  function Alter(a: Accidental): int
  {
    a.count * SignValue(a.sign)
  }

  /** `int(t)` for an octave text that may start with a minus sign. */
  function OctaveValue(t: string): int
  {
    if t != [] && t[0] == '-' then -(DigitsValue(t[1..]) as int) else DigitsValue(t)
  }

  /** Semitones above C0 of the pitch a name spells. */
  function NameSemitone(n: NoteName): int
  {
    12 * OctaveValue(n.octave) + LetterSemitone(n.letter) + Alter(n.acc)
  }

  /** `int(str(i)) == i`, the step from an octave to the octaves next to it. */
  lemma IntTextValue(i: int)
    ensures OctaveValue(IntText(i)) == i
  {
    if i < 0 {
      NatTextValue(-i);
      assert IntText(i)[1..] == NatText(-i);
    } else {
      NatTextValue(i);
    }
  }

  /** Every name the edge lists spells the same pitch as its key. */
  predicate Enharmonic(e: Edge)
  {
    forall j :: 0 <= j < |e.names| ==> NameSemitone(e.names[j]) == NameSemitone(e.key)
  }

  /** Every key of switch_dict spells the same pitch as each name it is listed for. */
  lemma SwitchSameSemitone(o: string)
    requires IsDigits(o)
    ensures forall e :: e in SwitchTable(o) ==> Enharmonic(e)
  {
    var v: int := DigitsValue(o);
    var below, above := IntText(v - 1), IntText(v + 1);
    assert OctaveValue(o) == v;
    IntTextValue(v - 1);
    IntTextValue(v + 1);
    forall e | e in SwitchTable(o)
      ensures Enharmonic(e)
    {
      var i :| 0 <= i < 12 && SwitchTable(o)[i] == e;
      EdgeEnharmonic(o, below, above, i);
    }
  }

  /** The same, row by row, for any octave texts one below and one above o. */
  lemma EdgeEnharmonic(o: string, below: string, above: string, i: nat)
    requires i < 12
    requires OctaveValue(below) == OctaveValue(o) - 1 && OctaveValue(above) == OctaveValue(o) + 1
    ensures Enharmonic(SwitchEdge(o, below, above, i))
  {
    if i < 4 {
      QuadrupleEnharmonic(o, below, above, i);
    } else if i < 8 {
      FlatEnharmonic(o, i);
    } else {
      LastEnharmonic(o, above, i);
    }
  }

  lemma QuadrupleEnharmonic(o: string, below: string, above: string, i: nat)
    requires i < 4
    requires OctaveValue(below) == OctaveValue(o) - 1 && OctaveValue(above) == OctaveValue(o) + 1
    ensures Enharmonic(SwitchEdge(o, below, above, i))
  {
  }

  lemma FlatEnharmonic(o: string, i: nat)
    requires 4 <= i < 8
    ensures forall below, above :: Enharmonic(SwitchEdge(o, below, above, i))
  {
  }

  lemma LastEnharmonic(o: string, above: string, i: nat)
    requires 8 <= i < 12
    requires OctaveValue(above) == OctaveValue(o) + 1
    ensures forall below :: Enharmonic(SwitchEdge(o, below, above, i))
  {
  }

  /** The twelve keys are different texts, so the dictionary holds twelve items in this order. */
  lemma SwitchKeysDistinct(o: string)
    requires IsDigits(o)
    ensures forall i, j :: 0 <= i < j < 12 ==> NameText(SwitchTable(o)[i].key) != NameText(SwitchTable(o)[j].key)
  {
    var v: int := DigitsValue(o);
    var below, above := IntText(v - 1), IntText(v + 1);
    IntTextValue(v + 1);
    assert OctaveValue(o) == v;
    forall i, j | 0 <= i < j < 12
      ensures NameText(SwitchTable(o)[i].key) != NameText(SwitchTable(o)[j].key)
    {
      KeyTextStart(SwitchEdge(o, below, above, i).key);
      KeyTextStart(SwitchEdge(o, below, above, j).key);
    }
  }

  /** A name with an accidental starts with its letter and the accidental's sign. */
  lemma KeyTextStart(n: NoteName)
    requires n.acc.count >= 1
    ensures var t := NameText(n); |t| >= 2 && t[0] == LetterChar(n.letter) && t[1] == n.acc.sign
    ensures n.acc.count == 1 ==> NameText(n)[2..] == n.octave
  {
  }

  /**
   * Each switch_dict spelling get_equivalent_notes adds is listed for a
   * name whose text is the note, and spells the same pitch as that name.
   */
  lemma MatchesEnharmonic(note: string, t: string)
    requires HasDigit(note) && t in EdgeMatches(note, SwitchTable(FirstDigitRun(note)))
    ensures exists e, j :: e in SwitchTable(FirstDigitRun(note)) && 0 <= j < |e.names|
              && NameText(e.names[j]) == note && NameText(e.key) == t && NameSemitone(e.names[j]) == NameSemitone(e.key)
  {
    var table := SwitchTable(FirstDigitRun(note));
    EdgeMatchesMembers(note, table);
    SwitchSameSemitone(FirstDigitRun(note));
    var e :| e in table && note in Texts(e.names) && t == NameText(e.key);
    var j :| 0 <= j < |e.names| && Texts(e.names)[j] == note;
    assert Enharmonic(e);
  }

  // ---------------------------------------------------------- the keyboard toggle

  /** `[n.strip() for n in text.split(',') if n.strip()]`: the entries of the note box. */
  function Entries(text: string): seq<string>
  {
    NonBlank(Split(text, ','))
  }

  /** The stripped pieces that are not empty, in their order. */
  function NonBlank(parts: seq<string>): seq<string>
  {
    if parts == [] then []
    else (if Strip(parts[0]) != [] then [Strip(parts[0])] else []) + NonBlank(parts[1..])
  }

  /** An entry as the note box yields it: not empty, no white space at either end, no comma. */
  predicate Clean(e: string)
  {
    e != [] && !IsSpace(e[0]) && !IsSpace(e[|e| - 1]) && ',' !in e
  }

  /** all_notes_to_remove: the clicked note and its equivalents. */
  function RemoveSet(clicked: string, equivalents: seq<string>): (r: set<string>)
    ensures forall x :: x in r <==> x == clicked || x in equivalents
  {
    {clicked} + set x | x in equivalents
  }

  /** The entries whose normal form is not to be removed, in their order. */
  function Kept(notes: seq<string>, remove: set<string>): seq<string>
  {
    if notes == [] then []
    else (if NormalizeNote(notes[0]) in remove then [] else [notes[0]]) + Kept(notes[1..], remove)
  }

  /** No entry has its normal form in the set. */
  predicate NoneRemoved(notes: seq<string>, remove: set<string>)
  {
    forall i :: 0 <= i < |notes| ==> NormalizeNote(notes[i]) !in remove
  }

  /** The entry list after a click: the kept entries, and the clicked note at the end when none went. */
  function ToggleList(notes: seq<string>, clicked: string, equivalents: seq<string>): seq<string>
  {
    var kept := Kept(notes, RemoveSet(clicked, equivalents));
    if |kept| == |notes| then kept + [clicked] else kept
  }

  /** The text update_chord_name puts in the note box after a click on the keyboard. */
  function ToggledText(text: string, clicked: string, library: seq<string>): string
    requires HasDigit(clicked)
  {
    ToggleText(text, clicked, Equivalents(clicked, library))
  }

  /** The same for any list of equivalents. */
  function ToggleText(text: string, clicked: string, equivalents: seq<string>): string
  {
    Join(ToggleList(Entries(Strip(text)), clicked, equivalents), ", ")
  }

  /** An entry is kept exactly when it is one and its normal form is not to be removed. */
  lemma {:induction false} KeptMembers(notes: seq<string>, remove: set<string>)
    ensures forall x :: x in Kept(notes, remove) <==> x in notes && NormalizeNote(x) !in remove
  {
    if notes != [] {
      KeptMembers(notes[1..], remove);
      assert notes == [notes[0]] + notes[1..];
    }
  }

  /** The kept entries are the entries with some left out, in their order. */
  lemma {:induction false} KeptSubseq(notes: seq<string>, remove: set<string>)
    ensures IsSubseq(Kept(notes, remove), notes)
  {
    if notes != [] {
      KeptSubseq(notes[1..], remove);
      var k := Kept(notes, remove);
      if NormalizeNote(notes[0]) in remove {
        assert k == Kept(notes[1..], remove);
        SubseqCons(k, notes);
      } else {
        assert k[0] == notes[0] && k[1..] == Kept(notes[1..], remove);
      }
    }
  }

  /** The length test of the source tells whether anything was removed, and nothing removed means the same list. */
  lemma KeptLength(notes: seq<string>, remove: set<string>)
    ensures |Kept(notes, remove)| <= |notes|
    ensures |Kept(notes, remove)| == |notes| <==> NoneRemoved(notes, remove)
    ensures NoneRemoved(notes, remove) ==> Kept(notes, remove) == notes
  {
    KeptShorter(notes, remove);
    KeptNone(notes, remove);
  }

  /** Without a removal Kept is the identity; with one it is strictly shorter. */
  lemma {:induction false} KeptShorter(notes: seq<string>, remove: set<string>)
    ensures |Kept(notes, remove)| + (if NoneRemoved(notes, remove) then 0 else 1) <= |notes|
  {
    if notes != [] {
      KeptShorter(notes[1..], remove);
      NoneRemovedCons(notes, remove);
      var rest := Kept(notes[1..], remove);
      if NormalizeNote(notes[0]) in remove {
        assert Kept(notes, remove) == rest;
      } else {
        assert Kept(notes, remove) == [notes[0]] + rest;
      }
    }
  }

  lemma {:induction false} KeptNone(notes: seq<string>, remove: set<string>)
    ensures NoneRemoved(notes, remove) ==> Kept(notes, remove) == notes
  {
    if notes != [] && NoneRemoved(notes, remove) {
      KeptNone(notes[1..], remove);
      NoneRemovedCons(notes, remove);
      assert Kept(notes, remove) == [notes[0]] + Kept(notes[1..], remove);
      assert notes == [notes[0]] + notes[1..];
    }
  }

  lemma NoneRemovedCons(notes: seq<string>, remove: set<string>)
    requires notes != []
    ensures NoneRemoved(notes, remove) <==> NormalizeNote(notes[0]) !in remove && NoneRemoved(notes[1..], remove)
  {
    assert forall i :: 1 <= i < |notes| ==> notes[i] == notes[1..][i - 1];
  }

  lemma {:induction false} KeptAppend(a: seq<string>, b: seq<string>, remove: set<string>)
    ensures Kept(a + b, remove) == Kept(a, remove) + Kept(b, remove)
  {
    if a != [] {
      KeptAppend(a[1..], b, remove);
      var head := if NormalizeNote(a[0]) in remove then [] else [a[0]];
      TailAppend(a, b);
      assert Kept(a + b, remove) == head + Kept(a[1..] + b, remove);
      assert Kept(a, remove) == head + Kept(a[1..], remove);
    } else {
      assert a + b == b;
    }
  }

  /** Kept on a prefix grown by one entry. */
  lemma KeptSnoc(notes: seq<string>, i: nat, remove: set<string>)
    requires i < |notes|
    ensures Kept(notes[..i + 1], remove) == Kept(notes[..i], remove) + (if NormalizeNote(notes[i]) in remove then [] else [notes[i]])
  {
    assert notes[..i + 1] == notes[..i] + [notes[i]];
    KeptAppend(notes[..i], [notes[i]], remove);
    KeptOne(notes[i], remove);
  }

  lemma KeptOne(x: string, remove: set<string>)
    ensures Kept([x], remove) == if NormalizeNote(x) in remove then [] else [x]
  {
    assert [x][1..] == [];
  }

  lemma TailAppend<T>(a: seq<T>, b: seq<T>)
    requires a != []
    ensures (a + b)[0] == a[0] && (a + b)[1..] == a[1..] + b
  {
  }

  /**
   * A click adds the clicked note at the end when no entry is the clicked
   * note or one of its equivalents, in normal form; otherwise it removes
   * every such entry, whatever its spelling, and adds nothing.
   */
  lemma ToggleEffect(notes: seq<string>, clicked: string, equivalents: seq<string>)
    ensures var remove := RemoveSet(clicked, equivalents);
      NoneRemoved(notes, remove) ==> ToggleList(notes, clicked, equivalents) == notes + [clicked]
    ensures var remove := RemoveSet(clicked, equivalents); var r := ToggleList(notes, clicked, equivalents);
      !NoneRemoved(notes, remove) ==>
        r == Kept(notes, remove) && |r| < |notes| && forall x :: x in r ==> x in notes && NormalizeNote(x) !in remove
  {
    var remove := RemoveSet(clicked, equivalents);
    KeptLength(notes, remove);
    KeptMembers(notes, remove);
  }

  /** Clicking the same key twice gives the entries back, for a clicked note already in normal form. */
  lemma ToggleTwice(notes: seq<string>, clicked: string, equivalents: seq<string>)
    requires NoneRemoved(notes, RemoveSet(clicked, equivalents))
    requires NormalizeNote(clicked) == clicked
    ensures ToggleList(ToggleList(notes, clicked, equivalents), clicked, equivalents) == notes
  {
    var remove := RemoveSet(clicked, equivalents);
    ToggleEffect(notes, clicked, equivalents);
    KeptAppend(notes, [clicked], remove);
    KeptLength(notes, remove);
    assert Kept([clicked], remove) == [];
  }

  /** The entries of any text are clean. */
  lemma EntriesClean(text: string)
    ensures forall e :: e in Entries(text) ==> Clean(e)
  {
    NonBlankClean(Split(text, ','));
  }

  lemma {:induction false} NonBlankClean(parts: seq<string>)
    requires forall i :: 0 <= i < |parts| ==> ',' !in parts[i]
    ensures forall e :: e in NonBlank(parts) ==> Clean(e)
  {
    if parts != [] {
      NonBlankClean(parts[1..]);
      StrippedClean(parts[0]);
      assert NonBlank(parts) == (if Strip(parts[0]) != [] then [Strip(parts[0])] else []) + NonBlank(parts[1..]);
    }
  }

  lemma StrippedClean(part: string)
    requires ',' !in part
    ensures Strip(part) != [] ==> Clean(Strip(part))
  {
    if Strip(part) != [] {
      ContainsNoChar(part, Strip(part), ',');
    }
  }

  /** A character missing from s is missing from every infix of s. */
  lemma ContainsNoChar(s: string, r: string, c: char)
    requires Contains(s, r) && c !in s
    ensures c !in r
  {
    var k :| 0 <= k <= |s| - |r| && OccursAt(s, r, k);
    assert forall j :: 0 <= j < |r| ==> r[j] == s[k + j];
  }

  /** Stripping a text with no white space at either end keeps it. */
  lemma StripUnchanged(e: string)
    requires Unpadded(e)
    ensures Strip(e) == e
  {
    assert TrimLeft(e) == e;
    assert TrimRight(e) == e;
  }

  /** No white space at either end. */
  predicate Unpadded(e: string)
  {
    e == [] || (!IsSpace(e[0]) && !IsSpace(e[|e| - 1]))
  }

  lemma StripSpace(x: string)
    ensures Strip([' '] + x) == Strip(x)
  {
    assert ([' '] + x)[1..] == x;
    assert TrimLeft([' '] + x) == TrimLeft(x);
  }

  lemma {:induction false} SplitNoSep(s: string, sep: char)
    requires sep !in s
    ensures Split(s, sep) == [s]
  {
    if s != [] {
      SplitNoSep(s[1..], sep);
      assert s == [s[0]] + s[1..];
    }
  }

  lemma {:induction false} SplitAfter(a: string, b: string, sep: char)
    requires sep !in a
    ensures Split(a + [sep] + b, sep) == [a] + Split(b, sep)
  {
    var s := a + [sep] + b;
    if a == [] {
      assert s[0] == sep && s[1..] == b;
    } else {
      SplitAfter(a[1..], b, sep);
      assert s[0] == a[0] && s[1..] == a[1..] + [sep] + b;
      assert a == [a[0]] + a[1..];
    }
  }

  /** A leading blank changes no entry. */
  lemma NonBlankSpace(s: string)
    ensures NonBlank(Split([' '] + s, ',')) == NonBlank(Split(s, ','))
  {
    var t := [' '] + s;
    assert t[0] == ' ' && t[1..] == s;
    var parts := Split(s, ',');
    var parts' := Split(t, ',');
    assert parts'[0] == [' '] + parts[0] && parts'[1..] == parts[1..];
    StripSpace(parts[0]);
  }

  /** Reading back the text `', '.join(L)` writes gives L, for clean entries: the parse on line 460 sees the edited list. */
  lemma {:induction false} EntriesJoin(notes: seq<string>)
    requires forall i :: 0 <= i < |notes| ==> Clean(notes[i])
    ensures Entries(Join(notes, ", ")) == notes
  {
    if |notes| == 1 {
      EntriesOne(notes[0]);
    } else if |notes| > 1 {
      CleanTail(notes);
      EntriesJoin(notes[1..]);
      EntriesJoinStep(notes[0], notes[1..]);
      assert notes == [notes[0]] + notes[1..];
    }
  }

  lemma EntriesJoinStep(h: string, t: seq<string>)
    requires t != [] && Clean(h)
    requires Entries(Join(t, ", ")) == t
    ensures Entries(Join([h] + t, ", ")) == [h] + t
  {
    JoinCons(h, t, ", ");
    EntriesCons(h, Join(t, ", "));
  }

  lemma JoinCons(h: string, t: seq<string>, sep: string)
    requires t != []
    ensures Join([h] + t, sep) == h + sep + Join(t, sep)
  {
    assert ([h] + t)[1..] == t;
  }

  lemma CleanTail(notes: seq<string>)
    requires notes != []
    requires forall i :: 0 <= i < |notes| ==> Clean(notes[i])
    ensures forall i :: 0 <= i < |notes[1..]| ==> Clean(notes[1..][i])
  {
    assert forall i :: 0 <= i < |notes| - 1 ==> notes[1..][i] == notes[i + 1];
  }

  lemma EntriesOne(e: string)
    requires Clean(e)
    ensures Entries(e) == [e]
  {
    SplitNoSep(e, ',');
    StripUnchanged(e);
    assert [e][1..] == [];
    assert NonBlank([e]) == [e] + NonBlank([]);
  }

  lemma EntriesCons(e: string, rest: string)
    requires Clean(e)
    ensures Entries(e + ", " + rest) == [e] + Entries(rest)
  {
    assert e + ", " + rest == e + [','] + ([' '] + rest);
    SplitAfter(e, [' '] + rest, ',');
    var parts := [e] + Split([' '] + rest, ',');
    assert parts[0] == e && parts[1..] == Split([' '] + rest, ',');
    StripUnchanged(e);
    assert NonBlank(parts) == [e] + NonBlank(Split([' '] + rest, ','));
    NonBlankSpace(rest);
  }

  /** A joined list of clean entries begins with the first and ends with the last. */
  lemma {:induction false} JoinEnds(notes: seq<string>)
    requires forall i :: 0 <= i < |notes| ==> Clean(notes[i])
    ensures Unpadded(Join(notes, ", "))
  {
    if |notes| > 1 {
      var rest := Join(notes[1..], ", ");
      assert forall i :: 0 <= i < |notes| - 1 ==> notes[1..][i] == notes[i + 1];
      JoinEnds(notes[1..]);
      var t := notes[0] + ", " + rest;
      assert t[0] == notes[0][0];
      assert t[|t| - 1] == rest[|rest| - 1];
    }
  }

  /** Every entry of the toggled list is clean when the clicked note is. */
  lemma ToggleListClean(notes: seq<string>, clicked: string, equivalents: seq<string>)
    requires forall e :: e in notes ==> Clean(e)
    requires Clean(clicked)
    ensures forall i :: 0 <= i < |ToggleList(notes, clicked, equivalents)| ==> Clean(ToggleList(notes, clicked, equivalents)[i])
  {
    var r := ToggleList(notes, clicked, equivalents);
    KeptMembers(notes, RemoveSet(clicked, equivalents));
    assert forall i :: 0 <= i < |r| ==> r[i] in r;
  }

  /** The parse on line 460 reads back the toggled entry list from the new text. */
  lemma ToggleTextEntries(text: string, clicked: string, equivalents: seq<string>)
    requires Clean(clicked)
    ensures Entries(ToggleText(text, clicked, equivalents)) == ToggleList(Entries(Strip(text)), clicked, equivalents)
  {
    var notes := Entries(Strip(text));
    EntriesClean(Strip(text));
    ToggleListClean(notes, clicked, equivalents);
    EntriesJoin(ToggleList(notes, clicked, equivalents));
  }

  /** A click that removes nothing leaves a text whose entries are the old ones and the clicked note. */
  lemma ToggleTextAdds(text: string, clicked: string, equivalents: seq<string>)
    requires Clean(clicked)
    requires NoneRemoved(Entries(Strip(text)), RemoveSet(clicked, equivalents))
    ensures Entries(Strip(ToggleText(text, clicked, equivalents))) == Entries(Strip(text)) + [clicked]
  {
    ToggleTextStripped(text, clicked, equivalents);
    ToggleTextEntries(text, clicked, equivalents);
    ToggleEffect(Entries(Strip(text)), clicked, equivalents);
  }

  /** The text a click writes has no white space at either end. */
  lemma ToggleTextStripped(text: string, clicked: string, equivalents: seq<string>)
    requires Clean(clicked)
    ensures Strip(ToggleText(text, clicked, equivalents)) == ToggleText(text, clicked, equivalents)
  {
    var notes := Entries(Strip(text));
    EntriesClean(Strip(text));
    ToggleListClean(notes, clicked, equivalents);
    JoinStripped(ToggleList(notes, clicked, equivalents));
  }

  /** Stripping a joined list of clean entries keeps it. */
  lemma JoinStripped(notes: seq<string>)
    requires forall i :: 0 <= i < |notes| ==> Clean(notes[i])
    ensures Strip(Join(notes, ", ")) == Join(notes, ", ")
  {
    JoinEnds(notes);
    StripUnchanged(Join(notes, ", "));
  }

  /**
   * Two clicks on the same key leave the note box with its entries as
   * before, written `', '`-separated, when the first click added the note.
   */
  lemma ToggleTextTwice(text: string, clicked: string, equivalents: seq<string>)
    requires Clean(clicked) && NormalizeNote(clicked) == clicked
    requires NoneRemoved(Entries(Strip(text)), RemoveSet(clicked, equivalents))
    ensures ToggleText(ToggleText(text, clicked, equivalents), clicked, equivalents) == Join(Entries(Strip(text)), ", ")
  {
    var notes := Entries(Strip(text));
    var once := ToggleText(text, clicked, equivalents);
    ToggleTextAdds(text, clicked, equivalents);
    ToggleEffect(notes, clicked, equivalents);
    ToggleTwice(notes, clicked, equivalents);
    assert ToggleList(notes + [clicked], clicked, equivalents) == notes;
    assert ToggleText(once, clicked, equivalents) == Join(ToggleList(notes + [clicked], clicked, equivalents), ", ");
  }

  /** The names the keyboard produces satisfy what the toggle lemmas ask of a clicked note. */
  lemma SpellingClicks(sp: Spelling)
    ensures HasDigit(Text(sp))
    ensures Clean(Text(sp))
    ensures NormalizeNote(Text(sp)) == Text(sp)
  {
    var t := Text(sp);
    NormalizeSpelling(sp);
    assert IsDigit(t[|t| - 1]);
    SpellingClean(sp);
  }

  lemma SpellingClean(sp: Spelling)
    ensures Clean(Text(sp))
  {
    var t := Text(sp);
    var mark := MarkText(sp.mark);
    var digits := NatText(sp.octave);
    assert t == [LetterChar(sp.letter)] + mark + digits;
    assert ',' !in digits by {
      assert AllDigits(digits);
    }
  }
}
