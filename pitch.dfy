/**
 * Pitch names and piano keys as the virtual keyboard sees them.
 *
 * A note is written the way music21 names pitches: a letter, at most one
 * accidental ('#' sharp, '-' flat, and the alternative flat sign 'b'), and
 * an octave number, e.g. "C#4", "B-0", "Cb8".  The 88 keys are named
 * "Wh1".."Wh52" (white keys from A0 up to C8) and "BlN", the black key just
 * above the white key "WhN".
 */
module Pitch {
  import opened Strings

  datatype Letter = C | D | E | F | G | A | B

  datatype Mark = Natural | Sharp | Dash | Flat

  datatype Spelling = Spelling(letter: Letter, mark: Mark, octave: nat)

  /** The key names "WhN" and "BlN". */
  datatype KeyId = Wh(n: nat) | Bl(n: nat)

  /** `f'Wh{i + 1}'` and `f'Bl{i + 1}'`: the kind of key, then its number. */
  function KeyName(k: KeyId): (s: string)
    ensures |s| > 2 && s[2..] == NatText(k.n)
    ensures s[0] == 'W' <==> k.Wh?
  {
    (if k.Wh? then "Wh" else "Bl") + NatText(k.n)
  }

  function LetterChar(l: Letter): char
  {
    match l
    case C => 'C' case D => 'D' case E => 'E' case F => 'F' case G => 'G' case A => 'A' case B => 'B'
  }

  function MarkText(m: Mark): string
  {
    match m
    case Natural => ""
    case Sharp => "#"
    case Dash => "-"
    case Flat => "b"
  }

  /** The note name of a spelling, e.g. "C#4". */
  function Text(s: Spelling): (t: string)
    ensures |t| >= 2 && IsUpper(t[0]) && IsDigit(t[|t| - 1])
  {
    [LetterChar(s.letter)] + MarkText(s.mark) + NatText(s.octave)
  }

  /** Distinct spellings have distinct names. */
  lemma TextInjective(s1: Spelling, s2: Spelling)
    requires Text(s1) == Text(s2)
    ensures s1 == s2
  {
    var t := Text(s1);
    assert t[0] == LetterChar(s1.letter) && t[0] == LetterChar(s2.letter);
    var m1 := MarkText(s1.mark);
    var m2 := MarkText(s2.mark);
    var d1 := NatText(s1.octave);
    var d2 := NatText(s2.octave);
    assert t == [t[0]] + m1 + d1 && t == [t[0]] + m2 + d2;
    assert t[1] == (if m1 == [] then d1[0] else m1[0]);
    assert t[1] == (if m2 == [] then d2[0] else m2[0]);
    assert m1 == m2;
    assert d1 == t[1 + |m1|..] == d2;
    NatTextInjective(s1.octave, s2.octave);
  }

  /** Distinct keys have distinct names. */
  lemma NameInjective(k1: KeyId, k2: KeyId)
    requires KeyName(k1) == KeyName(k2)
    ensures k1 == k2
  {
    var s := KeyName(k1);
    assert s[0] == KeyName(k1)[0] == KeyName(k2)[0];
    assert k1.Wh? <==> s[0] == 'W';
    assert k2.Wh? <==> s[0] == 'W';
    NatTextInjective(k1.n, k2.n);
  }

  function LetterSemitone(l: Letter): int
  {
    match l case C => 0 case D => 2 case E => 4 case F => 5 case G => 7 case A => 9 case B => 11
  }

  function MarkValue(m: Mark): int
  {
    match m case Natural => 0 case Sharp => 1 case Dash => -1 case Flat => -1
  }

  /** Semitones above C0; equal values sound the same pitch. */
  function Semitone(s: Spelling): int
  {
    12 * s.octave + LetterSemitone(s.letter) + MarkValue(s.mark)
  }

  /** The position of a letter inside its C-based octave. */
  function Pos(l: Letter): nat
  {
    match l case C => 0 case D => 1 case E => 2 case F => 3 case G => 4 case A => 5 case B => 6
  }

  /** The number N of the white key "WhN" that plays the natural l in octave o. */
  function Index(l: Letter, o: nat): int
  {
    7 * o + Pos(l) - 4
  }

  const WhiteLetters: seq<Letter> := [A, B, C, D, E, F, G]

  /** The natural note played by the white key "WhN". */
  function NaturalOf(n: nat): (s: Spelling)
    requires n >= 1
    ensures s.mark == Natural
  {
    var m := n - 1;
    Spelling(WhiteLetters[m % 7], Natural, if m % 7 < 2 then m / 7 else m / 7 + 1)
  }

  lemma NaturalAt(l: Letter, o: nat)
    requires Index(l, o) >= 1
    ensures NaturalOf(Index(l, o)) == Spelling(l, Natural, o)
  {
    var m := Index(l, o) - 1;
    if Pos(l) >= 5 {
      assert m == 7 * o + (Pos(l) - 5);
    } else {
      assert m == 7 * (o - 1) + (Pos(l) + 2);
    }
  }

  lemma IndexOfNatural(n: nat)
    requires n >= 1
    ensures Index(NaturalOf(n).letter, NaturalOf(n).octave) == n
  {
  }

  /** The black-key positions the keyboard leaves out: there is no black key above B or E. */
  const SkippedBlack: set<int> := {1, 4, 8, 11, 15, 18, 22, 25, 29, 32, 36, 39, 43, 46, 50}

  /** The keys the keyboard creates: 52 white keys and 36 black ones. */
  predicate IsKey(k: KeyId)
  {
    match k
    case Wh(n) => 1 <= n <= 52
    case Bl(n) => 1 <= n <= 51 && n - 1 !in SkippedBlack
  }

  /** The skipped positions are exactly those whose white key below is a B or an E. */
  lemma SkippedBlackRule(n: nat)
    requires 1 <= n <= 51
    ensures n - 1 in SkippedBlack <==> NaturalOf(n).letter in {B, E}
  {
    var m := n - 1;
    assert m in SkippedBlack <==> m % 7 == 1 || m % 7 == 4 by {
      assert 0 <= m / 7 <= 7;
      assert m == 7 * (m / 7) + m % 7;
    }
  }

  /** The white key of a natural note, and the black key just above it. */
  function WhiteKey(l: Letter, o: nat): KeyId
    requires Index(l, o) >= 1
  {
    Wh(Index(l, o))
  }

  function BlackKey(l: Letter, o: nat): KeyId
    requires Index(l, o) >= 1
  {
    Bl(Index(l, o))
  }

  predicate HasBlackAbove(l: Letter) { l != B && l != E }

  /** The letter one step up the scale. */
  function Up(l: Letter): Letter
  {
    match l case C => D case D => E case E => F case F => G case G => A case A => B case B => C
  }

  /** The pitch a key sounds: a black key is a semitone above the white key it follows. */
  function KeySemitone(k: KeyId): int
    requires k.n >= 1
  {
    match k
    case Wh(n) => Semitone(NaturalOf(n))
    case Bl(n) => Semitone(NaturalOf(n)) + 1
  }

  /** A key is the white or black key of a natural with the octave, letter and range it names. */
  lemma KeyShape(k: KeyId)
    requires IsKey(k)
    ensures var w := NaturalOf(k.n);
            k == (if k.Wh? then WhiteKey(w.letter, w.octave) else BlackKey(w.letter, w.octave))
    ensures k.Bl? ==> HasBlackAbove(NaturalOf(k.n).letter)
  {
    IndexOfNatural(k.n);
    if k.Bl? {
      SkippedBlackRule(k.n);
    }
  }

  /** The keys span A0 (semitone 9) to C8 (semitone 96). */
  lemma KeySemitoneRange(k: KeyId)
    requires IsKey(k)
    ensures 9 <= KeySemitone(k) <= 96
  {
    KeyShape(k);
  }

  /** No two keys sound the same pitch. */
  lemma KeySemitoneInjective(k1: KeyId, k2: KeyId)
    requires IsKey(k1) && IsKey(k2) && KeySemitone(k1) == KeySemitone(k2)
    ensures k1 == k2
  {
    KeyShape(k1);
    KeyShape(k2);
    var w1 := NaturalOf(k1.n);
    var w2 := NaturalOf(k2.n);
    SemitoneDetermines(w1.letter, w1.octave, if k1.Bl? then 1 else 0, w2.letter, w2.octave, if k2.Bl? then 1 else 0);
  }

  /** Octave, letter and the raise onto a black key are recovered from the semitone. */
  lemma SemitoneDetermines(l1: Letter, o1: nat, x1: int, l2: Letter, o2: nat, x2: int)
    requires 0 <= x1 <= 1 && (x1 == 1 ==> HasBlackAbove(l1))
    requires 0 <= x2 <= 1 && (x2 == 1 ==> HasBlackAbove(l2))
    requires 12 * o1 + LetterSemitone(l1) + x1 == 12 * o2 + LetterSemitone(l2) + x2
    ensures l1 == l2 && o1 == o2 && x1 == x2
  {
    var r1 := LetterSemitone(l1) + x1;
    var r2 := LetterSemitone(l2) + x2;
    assert 0 <= r1 < 12 && 0 <= r2 < 12;
    assert o1 == o2;
  }

  /**
   * The spellings of a key, most common first: a white key is named by its
   * natural and then by the enharmonic spellings with one accidental
   * (sharp before flat, '-' before 'b'); a black key by the sharp of the
   * white key below it and then by the flats of the white key above.
   */
  function Expected(k: KeyId): (ss: seq<Spelling>)
    requires IsKey(k)
    ensures 1 <= |ss| <= 3
  {
    KeyShape(k);
    var w := NaturalOf(k.n);
    if k.Wh? then WhiteSpellings(w.letter, w.octave) else BlackSpellings(w.letter, w.octave)
  }

  function WhiteSpellings(l: Letter, o: nat): (ss: seq<Spelling>)
    requires Index(l, o) >= 1
    ensures 1 <= |ss| <= 3
  {
    var w := Spelling(l, Natural, o);
    match l
    case C => [w, Spelling(B, Sharp, o - 1)]
    case E => [w, Spelling(F, Dash, o), Spelling(F, Flat, o)]
    case F => [w, Spelling(E, Sharp, o)]
    case B => [w, Spelling(C, Dash, o + 1), Spelling(C, Flat, o + 1)]
    case _ => [w]
  }

  function BlackSpellings(l: Letter, o: nat): (ss: seq<Spelling>)
    ensures |ss| == 3
  {
    [Spelling(l, Sharp, o), Spelling(Up(l), Dash, o), Spelling(Up(l), Flat, o)]
  }

  /** Every listed spelling of a key sounds the key's pitch. */
  lemma ExpectedPitch(k: KeyId, s: Spelling)
    requires IsKey(k) && s in Expected(k)
    ensures Semitone(s) == KeySemitone(k)
  {
    KeyShape(k);
  }

  /** A white key's first spelling is its natural; a black key's are its sharp and then its '-' flat. */
  lemma ExpectedFirst(k: KeyId)
    requires IsKey(k)
    ensures k.Wh? ==> Expected(k)[0] == NaturalOf(k.n)
    ensures k.Bl? ==> |Expected(k)| == 3 && Expected(k)[0].mark == Sharp && Expected(k)[1].mark == Dash
  {
  }

  /** No spelling is listed for two keys: the keys' pitches differ. */
  lemma ExpectedDisjoint(s: Spelling, k1: KeyId, k2: KeyId)
    requires IsKey(k1) && IsKey(k2) && s in Expected(k1) && s in Expected(k2)
    ensures k1 == k2
  {
    ExpectedPitch(k1, s);
    ExpectedPitch(k2, s);
    KeySemitoneInjective(k1, k2);
  }

  /** A key lists each of its spellings once. */
  lemma ExpectedDistinct(k: KeyId)
    requires IsKey(k)
    ensures forall p, q :: 0 <= p < q < |Expected(k)| ==> Expected(k)[p] != Expected(k)[q]
  {
    KeyShape(k);
  }

  /** The letter one step down the scale. */
  function Down(l: Letter): Letter
  {
    match l case C => B case D => C case E => D case F => E case G => F case A => G case B => A
  }

  /** The key that sounds a spelling, for the pitches A0..C8. */
  function KeyOf(s: Spelling): KeyId
    requires 9 <= Semitone(s) <= 96
  {
    var l := s.letter;
    var o := s.octave;
    match s.mark
    case Natural => Wh(Index(l, o))
    case Sharp =>
      if l == E then Wh(Index(F, o))
      else if l == B then Wh(Index(C, o + 1))
      else Bl(Index(l, o))
    case _ =>
      if l == C then Wh(Index(B, o - 1))
      else if l == F then Wh(Index(E, o))
      else Bl(Index(Down(l), o))
  }

  /** Every spelling from A0 up to C8 is one of the expected spellings of a key. */
  lemma KeyOfSpelling(s: Spelling)
    requires 9 <= Semitone(s) <= 96
    ensures IsKey(KeyOf(s)) && s in Expected(KeyOf(s))
  {
    if s.mark == Natural {
      NaturalKeyOf(s);
    } else if s.mark == Sharp {
      SharpKeyOf(s);
    } else {
      FlatKeyOf(s);
    }
  }

  lemma NaturalKeyOf(s: Spelling)
    requires 9 <= Semitone(s) <= 96 && s.mark == Natural
    ensures IsKey(KeyOf(s)) && s in Expected(KeyOf(s))
  {
    WhiteExpected(s.letter, s.octave);
  }

  lemma SharpKeyOf(s: Spelling)
    requires 9 <= Semitone(s) <= 96 && s.mark == Sharp
    ensures IsKey(KeyOf(s)) && s in Expected(KeyOf(s))
  {
    var l := s.letter;
    var o := s.octave;
    if l == E {
      WhiteExpected(F, o);
    } else if l == B {
      WhiteExpected(C, o + 1);
    } else {
      BlackExpected(l, o);
    }
  }

  lemma FlatKeyOf(s: Spelling)
    requires 9 <= Semitone(s) <= 96 && (s.mark == Dash || s.mark == Flat)
    ensures IsKey(KeyOf(s)) && s in Expected(KeyOf(s))
  {
    var l := s.letter;
    var o := s.octave;
    if l == C {
      WhiteExpected(B, o - 1);
    } else if l == F {
      WhiteExpected(E, o);
    } else {
      BlackExpected(Down(l), o);
    }
  }

  lemma WhiteExpected(l: Letter, o: nat)
    requires 1 <= Index(l, o) <= 52
    ensures IsKey(WhiteKey(l, o)) && Expected(WhiteKey(l, o)) == WhiteSpellings(l, o)
  {
    NaturalAt(l, o);
  }

  lemma BlackExpected(l: Letter, o: nat)
    requires 1 <= Index(l, o) <= 51 && HasBlackAbove(l)
    ensures IsKey(BlackKey(l, o)) && Expected(BlackKey(l, o)) == BlackSpellings(l, o)
  {
    NaturalAt(l, o);
    SkippedBlackRule(Index(l, o));
  }
}
