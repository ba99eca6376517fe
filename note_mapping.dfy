/**
 * The note-to-key dictionary of the virtual keyboard (create_note_to_key_mapping),
 * its two lookups (note_to_key and get_note_from_key), and the proof that the
 * dictionary lists, for every one of the 88 keys, exactly the spellings of
 * that key, natural or sharp first.
 */
module NoteMapping {
  import opened Options
  import opened Pitch

  /** A dictionary item: a note name (as a spelling) and the key it is mapped to. */
  type Entry = (Spelling, KeyId)

  /** Octave 0, lines 115-118. */
  const Octave0: seq<Entry> := [
    (Spelling(A, Natural, 0), Wh(1)), (Spelling(B, Natural, 0), Wh(2)),
    (Spelling(A, Sharp, 0), Bl(1)), (Spelling(C, Natural, 1), Wh(3)),
    (Spelling(B, Dash, 0), Bl(1)),
    (Spelling(B, Flat, 0), Bl(1))
  ]

  /** Octave 1, lines 121-124. */
  const Octave1: seq<Entry> := [
    (Spelling(B, Sharp, 0), Wh(3)), (Spelling(D, Natural, 1), Wh(4)), (Spelling(E, Natural, 1), Wh(5)), (Spelling(F, Natural, 1), Wh(6)),
    (Spelling(G, Natural, 1), Wh(7)), (Spelling(A, Natural, 1), Wh(8)), (Spelling(B, Natural, 1), Wh(9)),
    (Spelling(C, Sharp, 1), Bl(3)), (Spelling(D, Sharp, 1), Bl(4)), (Spelling(E, Sharp, 1), Wh(6)), (Spelling(F, Sharp, 1), Bl(6)),
    (Spelling(G, Sharp, 1), Bl(7)), (Spelling(A, Sharp, 1), Bl(8)), (Spelling(C, Natural, 2), Wh(10)),
    (Spelling(D, Dash, 1), Bl(3)), (Spelling(E, Dash, 1), Bl(4)), (Spelling(F, Dash, 1), Wh(5)), (Spelling(G, Dash, 1), Bl(6)),
    (Spelling(A, Dash, 1), Bl(7)), (Spelling(B, Dash, 1), Bl(8)), (Spelling(C, Dash, 1), Wh(2)),
    (Spelling(D, Flat, 1), Bl(3)), (Spelling(E, Flat, 1), Bl(4)), (Spelling(F, Flat, 1), Wh(5)), (Spelling(G, Flat, 1), Bl(6)),
    (Spelling(A, Flat, 1), Bl(7)), (Spelling(B, Flat, 1), Bl(8)), (Spelling(C, Flat, 1), Wh(2))
  ]

  /** Octave 2, lines 127-130. */
  const Octave2: seq<Entry> := [
    (Spelling(B, Sharp, 1), Wh(10)), (Spelling(D, Natural, 2), Wh(11)), (Spelling(E, Natural, 2), Wh(12)), (Spelling(F, Natural, 2), Wh(13)),
    (Spelling(G, Natural, 2), Wh(14)), (Spelling(A, Natural, 2), Wh(15)), (Spelling(B, Natural, 2), Wh(16)),
    (Spelling(C, Sharp, 2), Bl(10)), (Spelling(D, Sharp, 2), Bl(11)), (Spelling(E, Sharp, 2), Wh(13)), (Spelling(F, Sharp, 2), Bl(13)),
    (Spelling(G, Sharp, 2), Bl(14)), (Spelling(A, Sharp, 2), Bl(15)), (Spelling(C, Natural, 3), Wh(17)),
    (Spelling(D, Dash, 2), Bl(10)), (Spelling(E, Dash, 2), Bl(11)), (Spelling(F, Dash, 2), Wh(12)), (Spelling(G, Dash, 2), Bl(13)),
    (Spelling(A, Dash, 2), Bl(14)), (Spelling(B, Dash, 2), Bl(15)), (Spelling(C, Dash, 2), Wh(9)),
    (Spelling(D, Flat, 2), Bl(10)), (Spelling(E, Flat, 2), Bl(11)), (Spelling(F, Flat, 2), Wh(12)), (Spelling(G, Flat, 2), Bl(13)),
    (Spelling(A, Flat, 2), Bl(14)), (Spelling(B, Flat, 2), Bl(15)), (Spelling(C, Flat, 2), Wh(9))
  ]

  /** Octave 3, lines 133-136. */
  const Octave3: seq<Entry> := [
    (Spelling(B, Sharp, 2), Wh(17)), (Spelling(D, Natural, 3), Wh(18)), (Spelling(E, Natural, 3), Wh(19)), (Spelling(F, Natural, 3), Wh(20)),
    (Spelling(G, Natural, 3), Wh(21)), (Spelling(A, Natural, 3), Wh(22)), (Spelling(B, Natural, 3), Wh(23)),
    (Spelling(C, Sharp, 3), Bl(17)), (Spelling(D, Sharp, 3), Bl(18)), (Spelling(E, Sharp, 3), Wh(20)), (Spelling(F, Sharp, 3), Bl(20)),
    (Spelling(G, Sharp, 3), Bl(21)), (Spelling(A, Sharp, 3), Bl(22)), (Spelling(C, Natural, 4), Wh(24)),
    (Spelling(D, Dash, 3), Bl(17)), (Spelling(E, Dash, 3), Bl(18)), (Spelling(F, Dash, 3), Wh(19)), (Spelling(G, Dash, 3), Bl(20)),
    (Spelling(A, Dash, 3), Bl(21)), (Spelling(B, Dash, 3), Bl(22)), (Spelling(C, Dash, 3), Wh(16)),
    (Spelling(D, Flat, 3), Bl(17)), (Spelling(E, Flat, 3), Bl(18)), (Spelling(F, Flat, 3), Wh(19)), (Spelling(G, Flat, 3), Bl(20)),
    (Spelling(A, Flat, 3), Bl(21)), (Spelling(B, Flat, 3), Bl(22)), (Spelling(C, Flat, 3), Wh(16))
  ]

  /** Octave 4, lines 139-142. */
  const Octave4: seq<Entry> := [
    (Spelling(B, Sharp, 3), Wh(24)), (Spelling(D, Natural, 4), Wh(25)), (Spelling(E, Natural, 4), Wh(26)), (Spelling(F, Natural, 4), Wh(27)),
    (Spelling(G, Natural, 4), Wh(28)), (Spelling(A, Natural, 4), Wh(29)), (Spelling(B, Natural, 4), Wh(30)),
    (Spelling(C, Sharp, 4), Bl(24)), (Spelling(D, Sharp, 4), Bl(25)), (Spelling(E, Sharp, 4), Wh(27)), (Spelling(F, Sharp, 4), Bl(27)),
    (Spelling(G, Sharp, 4), Bl(28)), (Spelling(A, Sharp, 4), Bl(29)), (Spelling(C, Natural, 5), Wh(31)),
    (Spelling(D, Dash, 4), Bl(24)), (Spelling(E, Dash, 4), Bl(25)), (Spelling(F, Dash, 4), Wh(26)), (Spelling(G, Dash, 4), Bl(27)),
    (Spelling(A, Dash, 4), Bl(28)), (Spelling(B, Dash, 4), Bl(29)), (Spelling(C, Dash, 4), Wh(23)),
    (Spelling(D, Flat, 4), Bl(24)), (Spelling(E, Flat, 4), Bl(25)), (Spelling(F, Flat, 4), Wh(26)), (Spelling(G, Flat, 4), Bl(27)),
    (Spelling(A, Flat, 4), Bl(28)), (Spelling(B, Flat, 4), Bl(29)), (Spelling(C, Flat, 4), Wh(23))
  ]

  /** Octave 5, lines 145-148. */
  const Octave5: seq<Entry> := [
    (Spelling(B, Sharp, 4), Wh(31)), (Spelling(D, Natural, 5), Wh(32)), (Spelling(E, Natural, 5), Wh(33)), (Spelling(F, Natural, 5), Wh(34)),
    (Spelling(G, Natural, 5), Wh(35)), (Spelling(A, Natural, 5), Wh(36)), (Spelling(B, Natural, 5), Wh(37)),
    (Spelling(C, Sharp, 5), Bl(31)), (Spelling(D, Sharp, 5), Bl(32)), (Spelling(E, Sharp, 5), Wh(34)), (Spelling(F, Sharp, 5), Bl(34)),
    (Spelling(G, Sharp, 5), Bl(35)), (Spelling(A, Sharp, 5), Bl(36)), (Spelling(C, Natural, 6), Wh(38)),
    (Spelling(D, Dash, 5), Bl(31)), (Spelling(E, Dash, 5), Bl(32)), (Spelling(F, Dash, 5), Wh(33)), (Spelling(G, Dash, 5), Bl(34)),
    (Spelling(A, Dash, 5), Bl(35)), (Spelling(B, Dash, 5), Bl(36)), (Spelling(C, Dash, 5), Wh(30)),
    (Spelling(D, Flat, 5), Bl(31)), (Spelling(E, Flat, 5), Bl(32)), (Spelling(G, Flat, 5), Bl(34)), (Spelling(A, Flat, 5), Bl(35)),
    (Spelling(B, Flat, 5), Bl(36)), (Spelling(C, Flat, 5), Wh(30)), (Spelling(F, Flat, 5), Wh(33))
  ]

  /** Octave 6, lines 151-154. */
  const Octave6: seq<Entry> := [
    (Spelling(B, Sharp, 5), Wh(38)), (Spelling(D, Natural, 6), Wh(39)), (Spelling(E, Natural, 6), Wh(40)), (Spelling(F, Natural, 6), Wh(41)),
    (Spelling(G, Natural, 6), Wh(42)), (Spelling(A, Natural, 6), Wh(43)), (Spelling(B, Natural, 6), Wh(44)),
    (Spelling(C, Sharp, 6), Bl(38)), (Spelling(D, Sharp, 6), Bl(39)), (Spelling(E, Sharp, 6), Wh(41)), (Spelling(F, Sharp, 6), Bl(41)),
    (Spelling(G, Sharp, 6), Bl(42)), (Spelling(A, Sharp, 6), Bl(43)), (Spelling(C, Natural, 7), Wh(45)),
    (Spelling(D, Dash, 6), Bl(38)), (Spelling(E, Dash, 6), Bl(39)), (Spelling(F, Dash, 6), Wh(40)), (Spelling(G, Dash, 6), Bl(41)),
    (Spelling(A, Dash, 6), Bl(42)), (Spelling(B, Dash, 6), Bl(43)), (Spelling(C, Dash, 6), Wh(37)),
    (Spelling(D, Flat, 6), Bl(38)), (Spelling(E, Flat, 6), Bl(39)), (Spelling(F, Flat, 6), Wh(40)), (Spelling(G, Flat, 6), Bl(41)),
    (Spelling(A, Flat, 6), Bl(42)), (Spelling(B, Flat, 6), Bl(43)), (Spelling(C, Flat, 6), Wh(37))
  ]

  /** Octave 7, lines 157-160. */
  const Octave7: seq<Entry> := [
    (Spelling(B, Sharp, 6), Wh(45)), (Spelling(D, Natural, 7), Wh(46)), (Spelling(E, Natural, 7), Wh(47)), (Spelling(F, Natural, 7), Wh(48)),
    (Spelling(G, Natural, 7), Wh(49)), (Spelling(A, Natural, 7), Wh(50)), (Spelling(B, Natural, 7), Wh(51)),
    (Spelling(C, Sharp, 7), Bl(45)), (Spelling(D, Sharp, 7), Bl(46)), (Spelling(E, Sharp, 7), Wh(48)), (Spelling(F, Sharp, 7), Bl(48)),
    (Spelling(G, Sharp, 7), Bl(49)), (Spelling(A, Sharp, 7), Bl(50)), (Spelling(C, Natural, 8), Wh(52)),
    (Spelling(D, Dash, 7), Bl(45)), (Spelling(E, Dash, 7), Bl(46)), (Spelling(F, Dash, 7), Wh(47)), (Spelling(G, Dash, 7), Bl(48)),
    (Spelling(A, Dash, 7), Bl(49)), (Spelling(B, Dash, 7), Bl(50)), (Spelling(C, Dash, 7), Wh(44)),
    (Spelling(D, Flat, 7), Bl(45)), (Spelling(E, Flat, 7), Bl(46)), (Spelling(F, Flat, 7), Wh(47)), (Spelling(G, Flat, 7), Bl(48)),
    (Spelling(A, Flat, 7), Bl(49)), (Spelling(B, Flat, 7), Bl(50)), (Spelling(C, Flat, 7), Wh(44))
  ]

  /** Octave 8, lines 163-165. */
  const Octave8: seq<Entry> := [
    (Spelling(B, Sharp, 7), Wh(52)),
    (Spelling(C, Dash, 8), Wh(51)),
    (Spelling(C, Flat, 8), Wh(51))
  ]

  /**
   * The dictionary's items in insertion order.  Within every octave the
   * C natural is listed with the octave below and the B sharp with the
   * octave above, so that a backward lookup meets C before B#.
   */
  const Table: seq<Entry> :=
    Octave0 + (Octave1 + (Octave2 + (Octave3 + (Octave4 + (Octave5 + (Octave6 + (Octave7 + Octave8)))))))

  function Pick(e: Entry, k: KeyId): seq<Spelling>
  {
    if e.1 == k then [e.0] else []
  }

  /** The spellings mapped to k, in dictionary order. */
  function SpellingsOf(t: seq<Entry>, k: KeyId): seq<Spelling>
  {
    if t == [] then [] else Pick(t[0], k) + SpellingsOf(t[1..], k)
  }

  /** `mapping.get(note)`: the key of the first item whose note name is the given text. */
  function Lookup(t: seq<Entry>, note: string): (r: Option<KeyId>)
    ensures r.None? <==> forall e :: e in t ==> Text(e.0) != note
    ensures r.Some? ==> exists s :: (s, r.value) in t && Text(s) == note
  {
    if t == [] then None
    else if Text(t[0].0) == note then Some(t[0].1)
    else Lookup(t[1..], note)
  }

  function NoteToKey(note: string): (k: Option<KeyId>)
    ensures k.Some? ==> exists s :: (s, k.value) in Table && Text(s) == note
  {
    Lookup(Table, note)
  }

  /** The first name a dictionary gives a key, or its second one when asked for and there is one. */
  function NoteFromKey(t: seq<Entry>, k: KeyId, second: bool): (r: Option<string>)
    ensures r.None? <==> SpellingsOf(t, k) == []
    ensures r.Some? && !second ==> r.value == Text(SpellingsOf(t, k)[0])
  {
    var notes := SpellingsOf(t, k);
    if second && |notes| > 1 then Some(Text(notes[1]))
    else if |notes| > 0 then Some(Text(notes[0]))
    else None
  }

  function GetNoteFromKey(k: KeyId, second: bool): (r: Option<string>)
  {
    NoteFromKey(Table, k, second)
  }
}
