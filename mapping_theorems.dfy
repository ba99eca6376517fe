/**
 * What the note-to-key dictionary gives: every key's spellings, the
 * two-way agreement of note_to_key and get_note_from_key, and the absence
 * of repeated note names.
 *
 * The proof rebuilds each octave of the dictionary from a pattern (four
 * rows: naturals, sharps, '-' flats, 'b' flats) and reads the spellings of
 * a key off the rows one at a time.
 */
module MappingTheorems {
  import opened Options
  import opened Pitch
  import opened NoteMapping

  function W(l: Letter, o: nat): KeyId requires Index(l, o) >= 1 { WhiteKey(l, o) }

  function K(l: Letter, o: nat): KeyId requires Index(l, o) >= 1 { BlackKey(l, o) }

  /** First row of octave o: B# of the octave below (on the C key), then the naturals D..B. */
  function NaturalsRow(o: nat): seq<Entry>
    requires o >= 1
  {
    [(Spelling(B, Sharp, o - 1), W(C, o)), (Spelling(D, Natural, o), W(D, o)), (Spelling(E, Natural, o), W(E, o)),
     (Spelling(F, Natural, o), W(F, o)), (Spelling(G, Natural, o), W(G, o)), (Spelling(A, Natural, o), W(A, o)),
     (Spelling(B, Natural, o), W(B, o))]
  }

  /** Second row: the sharps (E# on the F key), then the C natural of the next octave. */
  function SharpsRow(o: nat): seq<Entry>
    requires o >= 1
  {
    [(Spelling(C, Sharp, o), K(C, o)), (Spelling(D, Sharp, o), K(D, o)), (Spelling(E, Sharp, o), W(F, o)),
     (Spelling(F, Sharp, o), K(F, o)), (Spelling(G, Sharp, o), K(G, o)), (Spelling(A, Sharp, o), K(A, o)),
     (Spelling(C, Natural, o + 1), W(C, o + 1))]
  }

  /** Third and fourth rows: the flats written with mark m (Fb on the E key, Cb on the B key below). */
  function FlatsRow(o: nat, m: Mark): seq<Entry>
    requires o >= 1
  {
    [(Spelling(D, m, o), K(C, o)), (Spelling(E, m, o), K(D, o)), (Spelling(F, m, o), W(E, o)),
     (Spelling(G, m, o), K(F, o)), (Spelling(A, m, o), K(G, o)), (Spelling(B, m, o), K(A, o)),
     (Spelling(C, m, o), W(B, o - 1))]
  }

  /** Octave 5 lists its 'b' flats with the F flat moved to the end. */
  function FlatsRowFLast(o: nat, m: Mark): seq<Entry>
    requires o >= 1
  {
    [(Spelling(D, m, o), K(C, o)), (Spelling(E, m, o), K(D, o)), (Spelling(G, m, o), K(F, o)),
     (Spelling(A, m, o), K(G, o)), (Spelling(B, m, o), K(A, o)), (Spelling(C, m, o), W(B, o - 1)),
     (Spelling(F, m, o), W(E, o))]
  }

  function LastRow(o: nat): seq<Entry>
    requires o >= 1
  {
    if o == 5 then FlatsRowFLast(o, Flat) else FlatsRow(o, Flat)
  }

  function Pattern(o: nat): seq<Entry>
    requires o >= 1
  {
    NaturalsRow(o) + SharpsRow(o) + FlatsRow(o, Dash) + LastRow(o)
  }

  /** Octaves lo..hi of the pattern, one after the other. */
  function Patterns(lo: nat, hi: nat): seq<Entry>
    requires lo >= 1
    decreases hi + 1 - lo
  {
    if lo > hi then [] else Pattern(lo) + Patterns(lo + 1, hi)
  }

  lemma Octave1FollowsPattern()
    ensures Octave1 == Pattern(1)
  {
  }

  lemma Octave2FollowsPattern()
    ensures Octave2 == Pattern(2)
  {
  }

  lemma Octave3FollowsPattern()
    ensures Octave3 == Pattern(3)
  {
  }

  lemma Octave4FollowsPattern()
    ensures Octave4 == Pattern(4)
  {
  }

  lemma Octave5FollowsPattern()
    ensures Octave5 == Pattern(5)
  {
  }

  lemma Octave6FollowsPattern()
    ensures Octave6 == Pattern(6)
  {
  }

  lemma Octave7FollowsPattern()
    ensures Octave7 == Pattern(7)
  {
  }

  lemma TableFollowsPattern()
    ensures Table == Octave0 + (Patterns(1, 7) + Octave8)
  {
    Octave7FollowsPattern();
    PatternsStep(7, Octave7, Patterns(8, 7), Octave8, Octave8);
    Octave6FollowsPattern();
    PatternsStep(6, Octave6, Patterns(7, 7), Octave7 + Octave8, Octave8);
    Octave5FollowsPattern();
    PatternsStep(5, Octave5, Patterns(6, 7), Octave6 + (Octave7 + Octave8), Octave8);
    Octave4FollowsPattern();
    PatternsStep(4, Octave4, Patterns(5, 7), Octave5 + (Octave6 + (Octave7 + Octave8)), Octave8);
    Octave3FollowsPattern();
    PatternsStep(3, Octave3, Patterns(4, 7), Octave4 + (Octave5 + (Octave6 + (Octave7 + Octave8))), Octave8);
    Octave2FollowsPattern();
    PatternsStep(2, Octave2, Patterns(3, 7), Octave3 + (Octave4 + (Octave5 + (Octave6 + (Octave7 + Octave8)))), Octave8);
    Octave1FollowsPattern();
    PatternsStep(1, Octave1, Patterns(2, 7), Octave2 + (Octave3 + (Octave4 + (Octave5 + (Octave6 + (Octave7 + Octave8))))), Octave8);
  }

  /** One more octave in front: if octave lo follows the pattern, so do octaves lo..7. */
  lemma PatternsStep(lo: nat, x: seq<Entry>, p: seq<Entry>, rest: seq<Entry>, tail: seq<Entry>)
    requires 1 <= lo <= 7 && x == Pattern(lo) && p == Patterns(lo + 1, 7) && rest == p + tail
    ensures x + rest == Patterns(lo, 7) + tail
  {
    assert Patterns(lo, 7) == Pattern(lo) + p;
  }

  // ---------------------------------------------------------------- rows

  lemma SpellingsOfConcat(a: seq<Entry>, b: seq<Entry>, k: KeyId)
    ensures SpellingsOf(a + b, k) == SpellingsOf(a, k) + SpellingsOf(b, k)
  {
    if a == [] {
      assert a + b == b;
    } else {
      assert (a + b)[1..] == a[1..] + b;
      SpellingsOfConcat(a[1..], b, k);
      assert SpellingsOf(a + b, k) == Pick(a[0], k) + (SpellingsOf(a[1..], k) + SpellingsOf(b, k));
    }
  }

  lemma RowMiss(r: seq<Entry>, k: KeyId)
    requires forall j :: 0 <= j < |r| ==> r[j].1 != k
    ensures SpellingsOf(r, k) == []
  {
    if r != [] {
      assert r[0].1 != k;
      RowMiss(r[1..], k);
    }
  }

  lemma RowHit(r: seq<Entry>, k: KeyId, i: nat)
    requires i < |r| && r[i].1 == k
    requires forall j :: 0 <= j < |r| && j != i ==> r[j].1 != k
    ensures SpellingsOf(r, k) == [r[i].0]
  {
    if i == 0 {
      RowMiss(r[1..], k);
    } else {
      assert r[0].1 != k;
      RowHit(r[1..], k, i - 1);
    }
  }

  lemma NaturalsWhite(b: nat, l: Letter, o: nat)
    requires b >= 1 && Index(l, o) >= 1
    ensures SpellingsOf(NaturalsRow(b), W(l, o)) ==
      if b == o then [if l == C then Spelling(B, Sharp, o - 1) else Spelling(l, Natural, o)] else []
  {
    if b == o {
      RowHit(NaturalsRow(b), W(l, o), Pos(l));
    } else {
      RowMiss(NaturalsRow(b), W(l, o));
    }
  }

  lemma NaturalsBlack(b: nat, k: KeyId)
    requires b >= 1 && k.Bl?
    ensures SpellingsOf(NaturalsRow(b), k) == []
  {
    RowMiss(NaturalsRow(b), k);
  }

  lemma SharpsWhite(b: nat, l: Letter, o: nat)
    requires b >= 1 && Index(l, o) >= 1
    ensures SpellingsOf(SharpsRow(b), W(l, o)) ==
      if b == o && l == F then [Spelling(E, Sharp, o)]
      else if b + 1 == o && l == C then [Spelling(C, Natural, o)]
      else []
  {
    if b == o && l == F {
      RowHit(SharpsRow(b), W(l, o), 2);
    } else if b + 1 == o && l == C {
      RowHit(SharpsRow(b), W(l, o), 6);
    } else {
      RowMiss(SharpsRow(b), W(l, o));
    }
  }

  lemma SharpsBlack(b: nat, l: Letter, o: nat)
    requires b >= 1 && Index(l, o) >= 1 && HasBlackAbove(l)
    ensures SpellingsOf(SharpsRow(b), K(l, o)) == if b == o then [Spelling(l, Sharp, o)] else []
  {
    if b == o {
      RowHit(SharpsRow(b), K(l, o), Pos(l));
    } else {
      RowMiss(SharpsRow(b), K(l, o));
    }
  }

  lemma FlatsWhite(b: nat, l: Letter, o: nat, m: Mark)
    requires b >= 1 && Index(l, o) >= 1
    ensures SpellingsOf(FlatsRow(b, m), W(l, o)) ==
      if b == o && l == E then [Spelling(F, m, o)]
      else if b == o + 1 && l == B then [Spelling(C, m, b)]
      else []
  {
    if b == o && l == E {
      RowHit(FlatsRow(b, m), W(l, o), 2);
    } else if b == o + 1 && l == B {
      RowHit(FlatsRow(b, m), W(l, o), 6);
    } else {
      RowMiss(FlatsRow(b, m), W(l, o));
    }
  }

  lemma FlatsBlack(b: nat, l: Letter, o: nat, m: Mark)
    requires b >= 1 && Index(l, o) >= 1 && HasBlackAbove(l)
    ensures SpellingsOf(FlatsRow(b, m), K(l, o)) == if b == o then [Spelling(Up(l), m, o)] else []
  {
    if b == o {
      RowHit(FlatsRow(b, m), K(l, o), Pos(l));
    } else {
      RowMiss(FlatsRow(b, m), K(l, o));
    }
  }

  lemma FlatsFLastWhite(b: nat, l: Letter, o: nat, m: Mark)
    requires b >= 1 && Index(l, o) >= 1
    ensures SpellingsOf(FlatsRowFLast(b, m), W(l, o)) ==
      if b == o && l == E then [Spelling(F, m, o)]
      else if b == o + 1 && l == B then [Spelling(C, m, b)]
      else []
  {
    if b == o && l == E {
      RowHit(FlatsRowFLast(b, m), W(l, o), 6);
    } else if b == o + 1 && l == B {
      RowHit(FlatsRowFLast(b, m), W(l, o), 5);
    } else {
      RowMiss(FlatsRowFLast(b, m), W(l, o));
    }
  }

  lemma FlatsFLastBlack(b: nat, l: Letter, o: nat, m: Mark)
    requires b >= 1 && Index(l, o) >= 1 && HasBlackAbove(l)
    ensures SpellingsOf(FlatsRowFLast(b, m), K(l, o)) == if b == o then [Spelling(Up(l), m, o)] else []
  {
    if b == o {
      RowHit(FlatsRowFLast(b, m), K(l, o), if Pos(l) <= 1 then Pos(l) else Pos(l) - 1);
    } else {
      RowMiss(FlatsRowFLast(b, m), K(l, o));
    }
  }

  // ---------------------------------------------------------------- octaves

  /** The octave under which the dictionary lists a spelling: C naturals one lower, B sharps one higher. */
  function ListedOctave(s: Spelling): int
  {
    if s.letter == C && s.mark == Natural then s.octave - 1
    else if s.letter == B && s.mark == Sharp then s.octave + 1
    else s.octave
  }

  function In(s: Spelling, lo: int, hi: int): seq<Spelling>
  {
    if lo <= ListedOctave(s) <= hi then [s] else []
  }

  /** The spellings of ss that the dictionary lists under octaves lo..hi, in order. */
  function Listed(ss: seq<Spelling>, lo: int, hi: int): seq<Spelling>
  {
    if ss == [] then [] else In(ss[0], lo, hi) + Listed(ss[1..], lo, hi)
  }

  lemma ListedShort(ss: seq<Spelling>, lo: int, hi: int)
    requires |ss| <= 3
    ensures Listed(ss, lo, hi) ==
      (if |ss| > 0 then In(ss[0], lo, hi) else []) + (if |ss| > 1 then In(ss[1], lo, hi) else [])
      + (if |ss| > 2 then In(ss[2], lo, hi) else [])
  {
    if |ss| > 0 {
      var r := ss[1..];
      if |r| > 0 {
        assert r[1..] == ss[2..];
        if |ss| > 2 {
          assert ss[2..][1..] == [];
        }
      }
    }
  }

  lemma PatternRows(b: nat, k: KeyId)
    requires b >= 1
    ensures SpellingsOf(Pattern(b), k) == SpellingsOf(NaturalsRow(b), k) + SpellingsOf(SharpsRow(b), k)
                                          + SpellingsOf(FlatsRow(b, Dash), k) + SpellingsOf(LastRow(b), k)
  {
    SpellingsOfConcat(NaturalsRow(b), SharpsRow(b), k);
    SpellingsOfConcat(NaturalsRow(b) + SharpsRow(b), FlatsRow(b, Dash), k);
    SpellingsOfConcat(NaturalsRow(b) + SharpsRow(b) + FlatsRow(b, Dash), LastRow(b), k);
  }

  lemma PatternWhite(b: nat, l: Letter, o: nat)
    requires 1 <= b <= 7 && Index(l, o) >= 1
    ensures SpellingsOf(Pattern(b), W(l, o)) == Listed(WhiteSpellings(l, o), b, b)
  {
    PatternRows(b, W(l, o));
    NaturalsWhite(b, l, o);
    SharpsWhite(b, l, o);
    FlatsWhite(b, l, o, Dash);
    LastWhite(b, l, o);
    WhiteRowsCombine(b, l, o, SpellingsOf(NaturalsRow(b), W(l, o)), SpellingsOf(SharpsRow(b), W(l, o)),
      SpellingsOf(FlatsRow(b, Dash), W(l, o)), SpellingsOf(LastRow(b), W(l, o)));
  }

  /** The last row holds a white key's 'b' flat as the other flat rows do. */
  lemma LastWhite(b: nat, l: Letter, o: nat)
    requires b >= 1 && Index(l, o) >= 1
    ensures SpellingsOf(LastRow(b), W(l, o)) ==
      if b == o && l == E then [Spelling(F, Flat, o)]
      else if b == o + 1 && l == B then [Spelling(C, Flat, b)]
      else []
  {
    if b == 5 {
      FlatsFLastWhite(b, l, o, Flat);
    } else {
      FlatsWhite(b, l, o, Flat);
    }
  }

  /** The four rows' shares of a white key, put together, are the key's spellings listed in octave b. */
  lemma WhiteRowsCombine(b: nat, l: Letter, o: nat, r1: seq<Spelling>, r2: seq<Spelling>, r3: seq<Spelling>, r4: seq<Spelling>)
    requires Index(l, o) >= 1
    requires r1 == if b == o then [if l == C then Spelling(B, Sharp, o - 1) else Spelling(l, Natural, o)] else []
    requires r2 == if b == o && l == F then [Spelling(E, Sharp, o)]
                   else if b + 1 == o && l == C then [Spelling(C, Natural, o)] else []
    requires r3 == if b == o && l == E then [Spelling(F, Dash, o)]
                   else if b == o + 1 && l == B then [Spelling(C, Dash, b)] else []
    requires r4 == if b == o && l == E then [Spelling(F, Flat, o)]
                   else if b == o + 1 && l == B then [Spelling(C, Flat, b)] else []
    ensures r1 + r2 + r3 + r4 == Listed(WhiteSpellings(l, o), b, b)
  {
    var w := Spelling(l, Natural, o);
    match l {
      case C => ListedShort([w, Spelling(B, Sharp, o - 1)], b, b);
      case E => ListedShort([w, Spelling(F, Dash, o), Spelling(F, Flat, o)], b, b);
      case F => ListedShort([w, Spelling(E, Sharp, o)], b, b);
      case B => ListedShort([w, Spelling(C, Dash, o + 1), Spelling(C, Flat, o + 1)], b, b);
      case _ => ListedShort([w], b, b);
    }
  }

  lemma PatternBlack(b: nat, l: Letter, o: nat)
    requires 1 <= b <= 7 && Index(l, o) >= 1 && HasBlackAbove(l)
    ensures SpellingsOf(Pattern(b), K(l, o)) == Listed(BlackSpellings(l, o), b, b)
  {
    PatternRows(b, K(l, o));
    NaturalsBlack(b, K(l, o));
    SharpsBlack(b, l, o);
    FlatsBlack(b, l, o, Dash);
    if b == 5 {
      FlatsFLastBlack(b, l, o, Flat);
    } else {
      FlatsBlack(b, l, o, Flat);
    }
    BlackRowsCombine(b, l, o, SpellingsOf(NaturalsRow(b), K(l, o)), SpellingsOf(SharpsRow(b), K(l, o)),
      SpellingsOf(FlatsRow(b, Dash), K(l, o)), SpellingsOf(LastRow(b), K(l, o)));
  }

  lemma BlackRowsCombine(b: nat, l: Letter, o: nat, r1: seq<Spelling>, r2: seq<Spelling>, r3: seq<Spelling>, r4: seq<Spelling>)
    requires HasBlackAbove(l)
    requires r1 == [] && r2 == (if b == o then [Spelling(l, Sharp, o)] else [])
    requires r3 == (if b == o then [Spelling(Up(l), Dash, o)] else [])
    requires r4 == (if b == o then [Spelling(Up(l), Flat, o)] else [])
    ensures r1 + r2 + r3 + r4 == Listed(BlackSpellings(l, o), b, b)
  {
    ListedShort(BlackSpellings(l, o), b, b);
  }

  lemma PatternSpellings(b: nat, k: KeyId)
    requires 1 <= b <= 7 && IsKey(k)
    ensures SpellingsOf(Pattern(b), k) == Listed(Expected(k), b, b)
  {
    KeyShape(k);
    var w := NaturalOf(k.n);
    if k.Wh? {
      PatternWhite(b, w.letter, w.octave);
    } else {
      PatternBlack(b, w.letter, w.octave);
    }
  }

  /** Listing order: the spellings of a key come octave group by octave group. */
  predicate Ordered(ss: seq<Spelling>)
  {
    forall i, j :: 0 <= i < j < |ss| ==> ListedOctave(ss[i]) <= ListedOctave(ss[j])
  }

  lemma ExpectedOrdered(k: KeyId)
    requires IsKey(k)
    ensures Ordered(Expected(k))
    ensures forall s :: s in Expected(k) ==> 0 <= ListedOctave(s) <= 8
  {
    KeyShape(k);
    var w := NaturalOf(k.n);
    if k.Wh? {
      WhiteOrdered(w.letter, w.octave);
    } else {
      BlackOrdered(w.letter, w.octave);
    }
  }

  lemma WhiteOrdered(l: Letter, o: nat)
    requires Index(l, o) >= 1
    ensures Ordered(WhiteSpellings(l, o))
  {
  }

  lemma BlackOrdered(l: Letter, o: nat)
    requires HasBlackAbove(l)
    ensures Ordered(BlackSpellings(l, o))
  {
  }

  lemma ListedJoin(ss: seq<Spelling>, lo: int, mid: int, hi: int)
    requires |ss| <= 3 && Ordered(ss) && lo <= mid < hi
    ensures Listed(ss, lo, mid) + Listed(ss, mid + 1, hi) == Listed(ss, lo, hi)
  {
    ListedShort(ss, lo, mid);
    ListedShort(ss, mid + 1, hi);
    ListedShort(ss, lo, hi);
    if |ss| == 3 {
      assert ListedOctave(ss[0]) <= ListedOctave(ss[1]) <= ListedOctave(ss[2]);
    } else if |ss| == 2 {
      assert ListedOctave(ss[0]) <= ListedOctave(ss[1]);
    }
  }

  lemma ListedAll(ss: seq<Spelling>, lo: int, hi: int)
    requires forall s :: s in ss ==> lo <= ListedOctave(s) <= hi
    ensures Listed(ss, lo, hi) == ss
  {
    if ss != [] {
      assert ss[0] in ss;
      assert forall s :: s in ss[1..] ==> s in ss;
      ListedAll(ss[1..], lo, hi);
      assert ss == [ss[0]] + ss[1..];
    }
  }

  lemma {:induction false} PatternsSpellings(lo: nat, hi: nat, k: KeyId)
    requires 1 <= lo && hi <= 7 && IsKey(k)
    ensures SpellingsOf(Patterns(lo, hi), k) == Listed(Expected(k), lo, hi)
    decreases hi + 1 - lo
  {
    if lo > hi {
      ListedShort(Expected(k), lo, hi);
    } else {
      PatternsSpellings(lo + 1, hi, k);
      PatternsSpellingsStep(lo, hi, k, SpellingsOf(Pattern(lo), k), SpellingsOf(Patterns(lo + 1, hi), k));
    }
  }

  /** The octaves lo to hi list the spellings of octave lo and then those of octaves lo + 1 to hi. */
  lemma PatternsSpellingsStep(lo: nat, hi: nat, k: KeyId, first: seq<Spelling>, later: seq<Spelling>)
    requires 1 <= lo <= hi <= 7 && IsKey(k)
    requires first == SpellingsOf(Pattern(lo), k) && later == SpellingsOf(Patterns(lo + 1, hi), k)
    requires later == Listed(Expected(k), lo + 1, hi)
    ensures SpellingsOf(Patterns(lo, hi), k) == Listed(Expected(k), lo, hi)
  {
    SpellingsOfConcat(Pattern(lo), Patterns(lo + 1, hi), k);
    PatternSpellings(lo, k);
    ExpectedOrdered(k);
    if lo < hi {
      ListedJoin(Expected(k), lo, lo, hi);
    } else {
      ListedShort(Expected(k), lo + 1, hi);
    }
  }

  lemma SpellingsOfStep(t: seq<Entry>, i: nat, k: KeyId)
    requires i < |t|
    ensures SpellingsOf(t[i..], k) == Pick(t[i], k) + SpellingsOf(t[i + 1..], k)
  {
    assert t[i..][1..] == t[i + 1..];
  }

  /** Octave 0 holds A0, B0 and the black key between them, and the C1 natural. */
  lemma Octave0Content(k: KeyId)
    ensures SpellingsOf(Octave0, k) ==
      if k == Wh(1) then [Spelling(A, Natural, 0)]
      else if k == Wh(2) then [Spelling(B, Natural, 0)]
      else if k == Wh(3) then [Spelling(C, Natural, 1)]
      else if k == Bl(1) then [Spelling(A, Sharp, 0), Spelling(B, Dash, 0), Spelling(B, Flat, 0)]
      else []
  {
    var t := Octave0;
    assert t[0..] == t;
    SpellingsOfStep(t, 0, k);
    SpellingsOfStep(t, 1, k);
    SpellingsOfStep(t, 2, k);
    SpellingsOfStep(t, 3, k);
    SpellingsOfStep(t, 4, k);
    SpellingsOfStep(t, 5, k);
    assert t[6..] == [];
  }

  /** Octave 8 holds the B#7 of the top C key and the C flats of the B7 key. */
  lemma Octave8Content(k: KeyId)
    ensures SpellingsOf(Octave8, k) ==
      if k == Wh(52) then [Spelling(B, Sharp, 7)]
      else if k == Wh(51) then [Spelling(C, Dash, 8), Spelling(C, Flat, 8)]
      else []
  {
    var t := Octave8;
    assert t[0..] == t;
    SpellingsOfStep(t, 0, k);
    SpellingsOfStep(t, 1, k);
    SpellingsOfStep(t, 2, k);
    assert t[3..] == [];
  }

  lemma ListedNone(ss: seq<Spelling>, lo: int, hi: int)
    requires forall s :: s in ss ==> !(lo <= ListedOctave(s) <= hi)
    ensures Listed(ss, lo, hi) == []
  {
    if ss != [] {
      assert ss[0] in ss;
      assert forall s :: s in ss[1..] ==> s in ss;
      ListedNone(ss[1..], lo, hi);
    }
  }

  lemma WhiteListedRange(l: Letter, o: nat)
    requires 1 <= Index(l, o) <= 52
    ensures Index(l, o) > 3 ==> forall s :: s in WhiteSpellings(l, o) ==> ListedOctave(s) >= 1
    ensures Index(l, o) < 51 ==> forall s :: s in WhiteSpellings(l, o) ==> ListedOctave(s) <= 7
  {
  }

  lemma BlackListedRange(l: Letter, o: nat)
    requires 1 <= Index(l, o) <= 51 && HasBlackAbove(l)
    ensures Index(l, o) > 1 ==> forall s :: s in BlackSpellings(l, o) ==> ListedOctave(s) >= 1
    ensures forall s :: s in BlackSpellings(l, o) ==> ListedOctave(s) <= 7
  {
  }

  lemma ExpectedOctaveRange(k: KeyId)
    requires IsKey(k)
    ensures k !in {Wh(1), Wh(2), Wh(3), Bl(1)} ==> forall s :: s in Expected(k) ==> ListedOctave(s) >= 1
    ensures k !in {Wh(51), Wh(52)} ==> forall s :: s in Expected(k) ==> ListedOctave(s) <= 7
  {
    KeyShape(k);
    var w := NaturalOf(k.n);
    if k.Wh? {
      WhiteListedRange(w.letter, w.octave);
    } else {
      BlackListedRange(w.letter, w.octave);
    }
  }

  lemma Octave0Spellings(k: KeyId)
    requires IsKey(k)
    ensures SpellingsOf(Octave0, k) == Listed(Expected(k), 0, 0)
  {
    if k == Wh(1) || k == Wh(2) || k == Wh(3) || k == Bl(1) {
      Octave0Edge(k);
    } else {
      Octave0Content(k);
      ExpectedOctaveRange(k);
      ListedNone(Expected(k), 0, 0);
    }
  }

  lemma Octave0Edge(k: KeyId)
    requires k == Wh(1) || k == Wh(2) || k == Wh(3) || k == Bl(1)
    ensures SpellingsOf(Octave0, k) == Listed(Expected(k), 0, 0)
  {
    if k == Wh(1) {
      Octave0Wh1();
    } else if k == Wh(2) {
      Octave0Wh2();
    } else if k == Wh(3) {
      Octave0Wh3();
    } else {
      Octave0Bl1();
    }
  }

  lemma Octave0Wh1()
    ensures SpellingsOf(Octave0, Wh(1)) == Listed(Expected(Wh(1)), 0, 0)
  {
    Octave0Content(Wh(1));
    assert Expected(Wh(1)) == [Spelling(A, Natural, 0)];
    EdgeKey(Wh(1), Spelling(A, Natural, 0), [], 0, 0);
  }

  lemma Octave0Wh2()
    ensures SpellingsOf(Octave0, Wh(2)) == Listed(Expected(Wh(2)), 0, 0)
  {
    Octave0Content(Wh(2));
    ExpectedWh2();
    EdgeKey(Wh(2), Spelling(B, Natural, 0), [Spelling(C, Dash, 1), Spelling(C, Flat, 1)], 0, 0);
  }

  lemma Octave0Wh3()
    ensures SpellingsOf(Octave0, Wh(3)) == Listed(Expected(Wh(3)), 0, 0)
  {
    Octave0Content(Wh(3));
    assert Expected(Wh(3)) == [Spelling(C, Natural, 1), Spelling(B, Sharp, 0)];
    EdgeKey(Wh(3), Spelling(C, Natural, 1), [Spelling(B, Sharp, 0)], 0, 0);
  }

  lemma Octave0Bl1()
    ensures SpellingsOf(Octave0, Bl(1)) == Listed(Expected(Bl(1)), 0, 0)
  {
    Octave0Content(Bl(1));
    ExpectedBl1();
    ListedAll([Spelling(A, Sharp, 0), Spelling(B, Dash, 0), Spelling(B, Flat, 0)], 0, 0);
  }

  lemma ExpectedWh2()
    ensures Expected(Wh(2)) == [Spelling(B, Natural, 0), Spelling(C, Dash, 1), Spelling(C, Flat, 1)]
  {
  }

  lemma ExpectedBl1()
    ensures Expected(Bl(1)) == [Spelling(A, Sharp, 0), Spelling(B, Dash, 0), Spelling(B, Flat, 0)]
  {
  }

  /** An edge key whose first spelling is listed in the range and whose others are not. */
  lemma EdgeKey(k: KeyId, first: Spelling, rest: seq<Spelling>, lo: int, hi: int)
    requires IsKey(k) && Expected(k) == [first] + rest
    requires lo <= ListedOctave(first) <= hi
    requires forall s :: s in rest ==> !(lo <= ListedOctave(s) <= hi)
    ensures Listed(Expected(k), lo, hi) == [first]
  {
    var ss := Expected(k);
    assert ss[1..] == rest;
    ListedNone(rest, lo, hi);
  }

  lemma Octave8Spellings(k: KeyId)
    requires IsKey(k)
    ensures SpellingsOf(Octave8, k) == Listed(Expected(k), 8, 8)
  {
    if k == Wh(51) {
      Octave8Wh51();
    } else if k == Wh(52) {
      Octave8Wh52();
    } else {
      Octave8Content(k);
      ExpectedOctaveRange(k);
      ListedNone(Expected(k), 8, 8);
    }
  }

  lemma Octave8Wh51()
    ensures SpellingsOf(Octave8, Wh(51)) == Listed(Expected(Wh(51)), 8, 8)
  {
    Octave8Content(Wh(51));
    assert Expected(Wh(51)) == [Spelling(B, Natural, 7), Spelling(C, Dash, 8), Spelling(C, Flat, 8)];
    EdgeKeyLast(Wh(51), Spelling(B, Natural, 7), [Spelling(C, Dash, 8), Spelling(C, Flat, 8)], 8, 8);
  }

  lemma Octave8Wh52()
    ensures SpellingsOf(Octave8, Wh(52)) == Listed(Expected(Wh(52)), 8, 8)
  {
    Octave8Content(Wh(52));
    assert Expected(Wh(52)) == [Spelling(C, Natural, 8), Spelling(B, Sharp, 7)];
    EdgeKeyLast(Wh(52), Spelling(C, Natural, 8), [Spelling(B, Sharp, 7)], 8, 8);
  }

  /** An edge key whose first spelling is listed outside the range and whose others inside it. */
  lemma EdgeKeyLast(k: KeyId, first: Spelling, rest: seq<Spelling>, lo: int, hi: int)
    requires IsKey(k) && Expected(k) == [first] + rest
    requires !(lo <= ListedOctave(first) <= hi)
    requires forall s :: s in rest ==> lo <= ListedOctave(s) <= hi
    ensures Listed(Expected(k), lo, hi) == rest
  {
    var ss := Expected(k);
    assert ss[1..] == rest;
    ListedAll(rest, lo, hi);
  }

  // ---------------------------------------------------------------- the whole table

  /** The dictionary lists exactly the expected spellings of every key, in the expected order. */
  lemma TableSpellings(k: KeyId)
    requires IsKey(k)
    ensures SpellingsOf(Table, k) == Expected(k)
  {
    TableSplit(k);
    Octave0Spellings(k);
    PatternsSpellings(1, 7, k);
    Octave8Spellings(k);
    ExpectedOrdered(k);
    ListedThree(Expected(k), 0, 0, 1, 7, 8, 8, SpellingsOf(Octave0, k), SpellingsOf(Patterns(1, 7), k), SpellingsOf(Octave8, k));
  }

  lemma TableSplit(k: KeyId)
    ensures SpellingsOf(Table, k) == SpellingsOf(Octave0, k) + SpellingsOf(Patterns(1, 7), k) + SpellingsOf(Octave8, k)
  {
    TableFollowsPattern();
    SpellingsOfThree(Table, Octave0, Patterns(1, 7), Octave8, k);
  }

  lemma SpellingsOfThree(t: seq<Entry>, a: seq<Entry>, b: seq<Entry>, c: seq<Entry>, k: KeyId)
    requires t == a + (b + c)
    ensures SpellingsOf(t, k) == SpellingsOf(a, k) + SpellingsOf(b, k) + SpellingsOf(c, k)
  {
    SpellingsOfConcat(a, b + c, k);
    SpellingsOfConcat(b, c, k);
  }

  /** Three consecutive octave ranges of an ordered list of spellings make up all of it. */
  lemma ListedThree(ss: seq<Spelling>, lo: int, m1: int, n1: int, m2: int, n2: int, hi: int,
                    a: seq<Spelling>, b: seq<Spelling>, c: seq<Spelling>)
    requires |ss| <= 3 && Ordered(ss) && lo <= m1 < m2 < hi && n1 == m1 + 1 && n2 == m2 + 1
    requires forall s :: s in ss ==> lo <= ListedOctave(s) <= hi
    requires a == Listed(ss, lo, m1) && b == Listed(ss, n1, m2) && c == Listed(ss, n2, hi)
    ensures a + b + c == ss
  {
    var bc := ListedTwo(ss, n1, m2, n2, hi, b, c);
    var all := ListedTwo(ss, lo, m1, n1, hi, a, bc);
    ListedAll(ss, lo, hi);
    ConcatGlue(a, b, c, bc, all);
  }

  /** Two adjacent octave ranges of an ordered list of spellings make up the joint range. */
  lemma ListedTwo(ss: seq<Spelling>, lo: int, mid: int, n: int, hi: int, a: seq<Spelling>, b: seq<Spelling>)
    returns (ab: seq<Spelling>)
    requires |ss| <= 3 && Ordered(ss) && lo <= mid < hi && n == mid + 1
    requires a == Listed(ss, lo, mid) && b == Listed(ss, n, hi)
    ensures ab == Listed(ss, lo, hi) && a + b == ab
  {
    ListedJoin(ss, lo, mid, hi);
    ab := Listed(ss, lo, hi);
  }

  lemma ConcatGlue<T>(a: seq<T>, b: seq<T>, c: seq<T>, bc: seq<T>, all: seq<T>)
    requires b + c == bc && a + bc == all
    ensures a + b + c == all
  {
  }

  // ---------------------------------------------------------------- keys of the items

  predicate AllKeys(t: seq<Entry>)
  {
    forall i :: 0 <= i < |t| ==> IsKey(t[i].1)
  }

  lemma AllKeysConcat(a: seq<Entry>, b: seq<Entry>)
    requires AllKeys(a) && AllKeys(b)
    ensures AllKeys(a + b)
  {
    assert forall i :: |a| <= i < |a + b| ==> (a + b)[i] == b[i - |a|];
  }

  lemma PatternKeys(o: nat)
    requires 1 <= o <= 7
    ensures AllKeys(Pattern(o))
  {
    NaturalsKeys(o);
    SharpsKeys(o);
    FlatsKeys(o, Dash);
    if o == 5 {
      FlatsFLastKeys(o, Flat);
    } else {
      FlatsKeys(o, Flat);
    }
    AllKeysFour(NaturalsRow(o), SharpsRow(o), FlatsRow(o, Dash), LastRow(o));
  }

  lemma AllKeysFour(a: seq<Entry>, b: seq<Entry>, c: seq<Entry>, d: seq<Entry>)
    requires AllKeys(a) && AllKeys(b) && AllKeys(c) && AllKeys(d)
    ensures AllKeys(a + b + c + d)
  {
    AllKeysConcat(a, b);
    AllKeysConcat(a + b, c);
    AllKeysConcat(a + b + c, d);
  }

  lemma NaturalsKeys(o: nat)
    requires 1 <= o <= 7
    ensures AllKeys(NaturalsRow(o))
  {
  }

  lemma SharpsKeys(o: nat)
    requires 1 <= o <= 7
    ensures AllKeys(SharpsRow(o))
  {
    BlackKeysAt(o);
  }

  lemma FlatsKeys(o: nat, m: Mark)
    requires 1 <= o <= 7
    ensures AllKeys(FlatsRow(o, m))
  {
    BlackKeysAt(o);
  }

  lemma FlatsFLastKeys(o: nat, m: Mark)
    requires 1 <= o <= 7
    ensures AllKeys(FlatsRowFLast(o, m))
  {
    BlackKeysAt(o);
  }

  lemma BlackKeysAt(o: nat)
    requires 1 <= o <= 7
    ensures IsKey(K(C, o)) && IsKey(K(D, o)) && IsKey(K(F, o)) && IsKey(K(G, o)) && IsKey(K(A, o))
  {
    BlackExpected(C, o);
    BlackExpected(D, o);
    BlackExpected(F, o);
    BlackExpected(G, o);
    BlackExpected(A, o);
  }

  lemma {:induction false} PatternsKeys(lo: nat)
    requires 1 <= lo <= 8
    ensures AllKeys(Patterns(lo, 7))
    decreases 8 - lo
  {
    if lo <= 7 {
      PatternKeys(lo);
      PatternsKeys(lo + 1);
      AllKeysConcat(Pattern(lo), Patterns(lo + 1, 7));
    }
  }

  /** Every value of the dictionary is one of the 88 generated key ids. */
  lemma TableKeys()
    ensures AllKeys(Table)
  {
    TableFollowsPattern();
    PatternsKeys(1);
    EdgeOctaveKeys();
    AllKeysThree(Table, Octave0, Patterns(1, 7), Octave8);
  }

  lemma EdgeOctaveKeys()
    ensures AllKeys(Octave0) && AllKeys(Octave8)
  {
  }

  lemma AllKeysThree(t: seq<Entry>, a: seq<Entry>, b: seq<Entry>, c: seq<Entry>)
    requires t == a + (b + c) && AllKeys(a) && AllKeys(b) && AllKeys(c)
    ensures AllKeys(t)
  {
    AllKeysConcat(b, c);
    AllKeysConcat(a, b + c);
  }

  // ---------------------------------------------------------------- lookups

  lemma SpellingsOfMember(t: seq<Entry>, s: Spelling, k: KeyId)
    ensures s in SpellingsOf(t, k) <==> (s, k) in t
  {
    if t != [] {
      SpellingsOfMember(t[1..], s, k);
      assert t == [t[0]] + t[1..];
    }
  }

  /** An item is in the dictionary exactly when it pairs a key with one of the key's expected spellings. */
  lemma TableEntry(s: Spelling, k: KeyId)
    ensures (s, k) in Table <==> IsKey(k) && s in Expected(k)
  {
    SpellingsOfMember(Table, s, k);
    if (s, k) in Table {
      TableKeys();
      var i :| 0 <= i < |Table| && Table[i] == (s, k);
      assert IsKey(Table[i].1);
    }
    if IsKey(k) {
      TableSpellings(k);
    }
  }

  /**
   * note_to_key knows a spelling exactly when it lies between A0 and C8,
   * and then gives the key that sounds it.
   */
  lemma NoteToKeySpelling(s: Spelling)
    ensures NoteToKey(Text(s)).Some? <==> 9 <= Semitone(s) <= 96
    ensures NoteToKey(Text(s)).Some? ==> NoteToKey(Text(s)).value == KeyOf(s)
  {
    var r := NoteToKey(Text(s));
    if r.Some? {
      var s' :| (s', r.value) in Table && Text(s') == Text(s);
      TextInjective(s', s);
      TableEntry(s, r.value);
      ExpectedPitch(r.value, s);
      KeySemitoneRange(r.value);
      KeyOfSpelling(s);
      ExpectedDisjoint(s, r.value, KeyOf(s));
    }
    if 9 <= Semitone(s) <= 96 {
      KeyOfSpelling(s);
      TableEntry(s, KeyOf(s));
      assert (s, KeyOf(s)).0 == s;
    }
  }

  /** Whatever note_to_key finds is the key of a spelling with that name. */
  lemma NoteToKeyFound(note: string, k: KeyId)
    requires NoteToKey(note) == Some(k)
    ensures IsKey(k) && exists s :: Text(s) == note && s in Expected(k)
  {
    var s :| (s, k) in Table && Text(s) == note;
    TableEntry(s, k);
  }

  /** get_note_from_key: the key's first spelling, its second one when asked for, nothing for an unknown key. */
  lemma GetNoteFromKeySpelling(k: KeyId, second: bool)
    ensures !IsKey(k) ==> GetNoteFromKey(k, second).None?
    ensures IsKey(k) ==>
      GetNoteFromKey(k, second) == Some(Text(Expected(k)[if second && |Expected(k)| > 1 then 1 else 0]))
  {
    if IsKey(k) {
      TableSpellings(k);
    } else if SpellingsOf(Table, k) != [] {
      var s := SpellingsOf(Table, k)[0];
      SpellingsOfMember(Table, s, k);
      TableEntry(s, k);
    }
  }

  /** A plain click names a white key by its natural and a black key by the sharp of the white key below. */
  lemma ClickName(k: KeyId)
    requires IsKey(k)
    ensures var w := NaturalOf(k.n);
      GetNoteFromKey(k, false) == Some(Text(if k.Wh? then w else Spelling(w.letter, Sharp, w.octave)))
  {
    GetNoteFromKeySpelling(k, false);
    KeyShape(k);
  }

  /**
   * A shift-click names a black key by the '-' flat of the white key above,
   * a C key by its B#, an F key by its E#, an E key by F-, a B key by C-,
   * and any other white key by its natural.
   */
  lemma ShiftClickName(k: KeyId)
    requires IsKey(k)
    ensures var w := NaturalOf(k.n);
      GetNoteFromKey(k, true) == Some(Text(
        if k.Bl? then Spelling(Up(w.letter), Dash, w.octave)
        else if w.letter == C then Spelling(B, Sharp, w.octave - 1)
        else if w.letter == F then Spelling(E, Sharp, w.octave)
        else if w.letter == E then Spelling(F, Dash, w.octave)
        else if w.letter == B then Spelling(C, Dash, w.octave + 1)
        else w))
  {
    GetNoteFromKeySpelling(k, true);
    KeyShape(k);
  }

  /** Looking up the name that get_note_from_key gives leads back to the key. */
  lemma NoteKeyRoundTrip(k: KeyId, second: bool)
    requires IsKey(k)
    ensures GetNoteFromKey(k, second).Some?
    ensures NoteToKey(GetNoteFromKey(k, second).value) == Some(k)
  {
    GetNoteFromKeySpelling(k, second);
    var s := Expected(k)[if second && |Expected(k)| > 1 then 1 else 0];
    ExpectedPitch(k, s);
    KeySemitoneRange(k);
    NoteToKeySpelling(s);
    KeyOfSpelling(s);
    ExpectedDisjoint(s, k, KeyOf(s));
  }

  /** The dictionary literal never repeats a note name, so reading it as a list of items loses nothing. */
  lemma TableDistinct()
    ensures forall i, j :: 0 <= i < j < |Table| ==> Table[i].0 != Table[j].0
  {
    forall i, j | 0 <= i < j < |Table|
      ensures Table[i].0 != Table[j].0
    {
      if Table[i].0 == Table[j].0 {
        var s := Table[i].0;
        var k1 := Table[i].1;
        var k2 := Table[j].1;
        assert (s, k1) in Table && (s, k2) in Table;
        TableEntry(s, k1);
        TableEntry(s, k2);
        ExpectedDisjoint(s, k1, k2);
        SpellingsOfPositions(Table, i, j, k1);
        TableSpellings(k1);
        ExpectedDistinct(k1);
        assert false;
      }
    }
  }

  /** Two items of the same key appear in its spelling list in the order of the table. */
  lemma SpellingsOfPositions(t: seq<Entry>, i: nat, j: nat, k: KeyId)
    requires i < j < |t| && t[i].1 == k && t[j].1 == k
    ensures exists p, q :: 0 <= p < q < |SpellingsOf(t, k)| && SpellingsOf(t, k)[p] == t[i].0 && SpellingsOf(t, k)[q] == t[j].0
  {
    var r := SpellingsOf(t[1..], k);
    if i == 0 {
      SpellingsOfMember(t[1..], t[j].0, k);
      assert t[1..][j - 1] == t[j];
      var q :| 0 <= q < |r| && r[q] == t[j].0;
      assert SpellingsOf(t, k) == [t[0].0] + r;
      assert SpellingsOf(t, k)[0] == t[i].0 && SpellingsOf(t, k)[q + 1] == t[j].0;
    } else {
      SpellingsOfPositions(t[1..], i - 1, j - 1, k);
      var p, q :| 0 <= p < q < |r| && r[p] == t[i].0 && r[q] == t[j].0;
      var d := |Pick(t[0], k)|;
      assert SpellingsOf(t, k) == Pick(t[0], k) + r;
      assert SpellingsOf(t, k)[p + d] == t[i].0 && SpellingsOf(t, k)[q + d] == t[j].0;
    }
  }
}
