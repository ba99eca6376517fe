/**
 * The sounds the virtual keyboard plays.
 *
 * A loaded sound is an abstract value carrying the raw sample data that
 * pygame's get_raw() returns.  The mixer is modelled by the requests the
 * keyboard sends it, in order.  Under the sustain pedal the keyboard keeps
 * a list of held sounds.  That list is a bounded queue: a sound with the
 * same raw data is taken out first, the oldest sound is dropped once eight
 * are held, and the new sound goes at the end.
 */
module Sounds {
  import opened Options
  import opened Subsequences

  datatype Sound = Sound(id: nat, raw: seq<bv8>)

  /** A request to the mixer. */
  datatype Event = Play(s: Sound) | Stop(s: Sound)

  /**
   * The sound state: the list held under sustain, the sound played last
   * without sustain, and the requests issued so far.
   */
  datatype Audio = Audio(held: seq<Sound>, current: Option<Sound>, events: seq<Event>)

  /** pygame has 8 channels; the held list never grows past them. */
  const Channels: nat := 8

  /** The index of the first held sound with the given raw data, or |hs| when there is none. */
  function RawIndex(hs: seq<Sound>, raw: seq<bv8>): (i: nat)
    ensures i <= |hs|
    ensures i < |hs| ==> hs[i].raw == raw
    ensures forall j :: 0 <= j < i ==> hs[j].raw != raw
  {
    if hs == [] then 0
    else if hs[0].raw == raw then 0
    else 1 + RawIndex(hs[1..], raw)
  }

  /** The first index with the raw data, or |hs|, is the only index with those two properties. */
  lemma RawIndexUnique(hs: seq<Sound>, raw: seq<bv8>, i: nat)
    requires i <= |hs| && (i < |hs| ==> hs[i].raw == raw)
    requires forall j :: 0 <= j < i ==> hs[j].raw != raw
    ensures i == RawIndex(hs, raw)
  {
  }

  /** The held list with its first sound of the same raw data taken out. */
  function Deduped(hs: seq<Sound>, raw: seq<bv8>): seq<Sound>
  {
    var i := RawIndex(hs, raw);
    if i < |hs| then hs[..i] + hs[i + 1..] else hs
  }

  /** The held list after a sustained note. */
  function HeldAfter(hs: seq<Sound>, s: Sound): (h: seq<Sound>)
    ensures 1 <= |h| <= |hs| + 1 && h[|h| - 1] == s
  {
    var r := Deduped(hs, s.raw);
    (if |r| >= Channels then r[1..] else r) + [s]
  }

  /** The requests a sustained note issues: stop the same sound, stop the oldest at 8, play the new one. */
  function SustainEvents(hs: seq<Sound>, s: Sound): (es: seq<Event>)
    ensures 1 <= |es| <= 3 && es[|es| - 1] == Play(s)
    ensures forall i :: 0 <= i < |es| - 1 ==> es[i].Stop?
  {
    var i := RawIndex(hs, s.raw);
    var r := Deduped(hs, s.raw);
    (if i < |hs| then [Stop(hs[i])] else []) + (if |r| >= Channels then [Stop(r[0])] else []) + [Play(s)]
  }

  /** Playing the sound s, with the sustain pedal down or up. */
  function PlayOn(a: Audio, sustain: bool, s: Sound): Audio
  {
    if sustain then Audio(HeldAfter(a.held, s), a.current, a.events + SustainEvents(a.held, s))
    else Audio(a.held, Some(s), a.events + (if a.current.Some? then [Stop(a.current.value)] else []) + [Play(s)])
  }

  /** Playing a note: nothing happens for a note that has no loaded sound. */
  function PlayNote(a: Audio, sustain: bool, sounds: map<string, Sound>, note: Option<string>): (b: Audio)
    ensures |b.events| >= |a.events| && b.events[..|a.events|] == a.events
  {
    if note.Some? && note.value in sounds then PlayOn(a, sustain, sounds[note.value]) else a
  }

  /**
   * The sustain branch of play_note_sound on the held list hs and the
   * requests es issued so far: the scan for the same raw data, the stop and
   * removal it leads to, the eviction of the oldest at 8, the append and
   * the play request.
   */
  method SustainPlay(hs0: seq<Sound>, es0: seq<Event>, s: Sound) returns (hs: seq<Sound>, es: seq<Event>)
    ensures hs == HeldAfter(hs0, s) && es == es0 + SustainEvents(hs0, s)
  {
    hs, es := hs0, es0;
    var i := 0;
    while i < |hs| && hs[i].raw != s.raw
      invariant 0 <= i <= |hs|
      invariant forall j :: 0 <= j < i ==> hs[j].raw != s.raw
    {
      i := i + 1;
    }
    RawIndexUnique(hs, s.raw, i);
    if i < |hs| {
      es := es + [Stop(hs[i])];
      hs := hs[..i] + hs[i + 1..];
    }
    if |hs| >= Channels {
      es := es + [Stop(hs[0])];
      hs := hs[1..];
    }
    hs := hs + [s];
    es := es + [Play(s)];
  }

  /** The stop requests for every sound of hs but the last. */
  function StopAllButLast(hs: seq<Sound>): (es: seq<Event>)
    ensures |es| == if hs == [] then 0 else |hs| - 1
    ensures forall i :: 0 <= i < |es| ==> es[i] == Stop(hs[i])
  {
    if |hs| <= 1 then [] else [Stop(hs[0])] + StopAllButLast(hs[1..])
  }

  /** Releasing the pedal stops every held sound but the most recent one, and keeps the list as it is. */
  function Release(a: Audio): (b: Audio)
    ensures b.held == a.held && b.current == a.current
    ensures |b.events| >= |a.events| && b.events[..|a.events|] == a.events
    ensures forall e :: e in b.events[|a.events|..] ==> e.Stop?
  {
    Audio(a.held, a.current, a.events + StopAllButLast(a.held))
  }

  /** The stop requests one at a time, as a loop issues them. */
  lemma StopsPrefix(hs: seq<Sound>, i: nat)
    requires i + 1 < |hs|
    ensures StopAllButLast(hs)[..i + 1] == StopAllButLast(hs)[..i] + [Stop(hs[i])]
  {
    var es := StopAllButLast(hs);
    assert es[i] == Stop(hs[i]);
    assert es[..i + 1] == es[..i] + [es[i]];
  }

  /** The loop of toggle_sustain(False): a stop request for each held sound but the last. */
  method ReleaseStops(hs: seq<Sound>, es0: seq<Event>) returns (es: seq<Event>)
    ensures es == es0 + StopAllButLast(hs)
  {
    es := es0;
    var upTo := if hs == [] then 0 else |hs| - 1;
    for i := 0 to upTo
      invariant es == es0 + StopAllButLast(hs)[..i]
    {
      StopsPrefix(hs, i);
      es := es + [Stop(hs[i])];
    }
    assert StopAllButLast(hs)[..upTo] == StopAllButLast(hs);
  }

  /** No two held sounds have the same raw data. */
  predicate RawDistinct(hs: seq<Sound>)
  {
    forall i, j :: 0 <= i < j < |hs| ==> hs[i].raw != hs[j].raw
  }

  /** The held list stays within the 8 channels and ends with the sound just played. */
  lemma HeldAfterBounded(hs: seq<Sound>, s: Sound)
    requires |hs| <= Channels
    ensures 1 <= |HeldAfter(hs, s)| <= Channels
    ensures HeldAfter(hs, s)[|HeldAfter(hs, s)| - 1] == s
  {
  }

  /**
   * The sounds held before the new one are the old list in its own order,
   * less the first one with the same raw data and, once 8 are left, less
   * the oldest of those.
   */
  lemma HeldAfterKeepsOrder(hs: seq<Sound>, s: Sound)
    ensures var h := HeldAfter(hs, s); IsSubseq(h[..|h| - 1], hs)
    ensures |HeldAfter(hs, s)| == |hs| + 1 - (if RawIndex(hs, s.raw) < |hs| then 1 else 0)
                                   - (if |Deduped(hs, s.raw)| >= Channels then 1 else 0)
  {
    var i := RawIndex(hs, s.raw);
    var r := Deduped(hs, s.raw);
    var h := HeldAfter(hs, s);
    if i < |hs| {
      SubseqDelete(hs, i);
    } else {
      SubseqRefl(hs);
    }
    assert IsSubseq(r, hs);
    if |r| >= Channels {
      SubseqRefl(r[1..]);
      SubseqCons(r[1..], r);
      SubseqTrans(r[1..], r, hs);
      assert h[..|h| - 1] == r[1..];
    } else {
      assert h[..|h| - 1] == r;
    }
  }

  /** Every other held sound survives the note, unless it was the oldest of 8. */
  lemma HeldAfterKeeps(hs: seq<Sound>, s: Sound, x: Sound)
    requires x in hs && x.raw != s.raw
    requires |Deduped(hs, s.raw)| < Channels || x != Deduped(hs, s.raw)[0]
    ensures x in HeldAfter(hs, s)
  {
    var i := RawIndex(hs, s.raw);
    var j :| 0 <= j < |hs| && hs[j] == x;
    var r := Deduped(hs, s.raw);
    assert x in r by {
      if i < |hs| {
        assert j != i;
        if j < i {
          assert r[j] == x;
        } else {
          assert r[j - 1] == x;
        }
      }
    }
    if |r| >= Channels {
      var m :| 0 <= m < |r| && r[m] == x;
      assert m != 0;
      assert HeldAfter(hs, s)[m - 1] == x;
    }
  }

  lemma DedupedDistinct(hs: seq<Sound>, raw: seq<bv8>)
    requires RawDistinct(hs)
    ensures RawDistinct(Deduped(hs, raw))
    ensures forall x :: x in Deduped(hs, raw) ==> x.raw != raw
  {
    var i := RawIndex(hs, raw);
    var r := Deduped(hs, raw);
    if i < |hs| {
      forall p | 0 <= p < |r|
        ensures r[p] == hs[if p < i then p else p + 1]
      {
      }
    }
  }

  /** Sustained notes never layer: the held sounds keep distinct raw data, the new one included. */
  lemma HeldAfterDistinct(hs: seq<Sound>, s: Sound)
    requires RawDistinct(hs)
    ensures RawDistinct(HeldAfter(hs, s))
    ensures var h := HeldAfter(hs, s); forall j :: 0 <= j < |h| - 1 ==> h[j].raw != s.raw
  {
    var r := Deduped(hs, s.raw);
    DedupedDistinct(hs, s.raw);
    var rest := if |r| >= Channels then r[1..] else r;
    var h := HeldAfter(hs, s);
    assert h == rest + [s];
    forall p | 0 <= p < |rest|
      ensures rest[p] in r
    {
      if |r| >= Channels {
        assert rest[p] == r[p + 1];
      }
    }
  }

  /** A note with no loaded sound changes nothing. */
  lemma PlayNoteSilent(a: Audio, sustain: bool, sounds: map<string, Sound>, note: Option<string>)
    requires note.None? || note.value !in sounds
    ensures PlayNote(a, sustain, sounds, note) == a
  {
  }

  /**
   * Without sustain only the current sound is replaced: the previous one is
   * stopped, the new one played, and the held list is left as it was.
   */
  lemma PlayWithoutSustain(a: Audio, s: Sound)
    ensures PlayOn(a, false, s).held == a.held
    ensures PlayOn(a, false, s).current == Some(s)
  {
  }

  /** With sustain the current sound is untouched and every request ends with playing the new sound. */
  lemma PlayWithSustain(a: Audio, s: Sound)
    ensures PlayOn(a, true, s).current == a.current
    ensures var es := PlayOn(a, true, s).events; |es| > |a.events| && es[..|a.events|] == a.events && es[|es| - 1] == Play(s)
  {
  }
}
