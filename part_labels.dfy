/**
 * label_consecutive_parts: neighbouring parts of a score with the same
 * name are the staves of one instrument (a piano, a harp) and are told
 * apart by clef.  The name of each part is rewritten in place.
 *
 * Part names are music21's partName: text or None.  f-strings show None
 * as "None", while `partName or "Unknown Part"` replaces None and "".
 */
module PartLabels {
  import opened Options
  import opened Strings

  class Part {
    var partName: Option<string>

    constructor (partName: Option<string>)
      ensures this.partName == partName
    {
      this.partName := partName;
    }
  }

  /** `f'{name}'` */
  function Show(name: Option<string>): string
  {
    if name.Some? then name.value else "None"
  }

  /** `name or "Unknown Part"` */
  function OwnLabel(name: Option<string>): (l: string)
    ensures l != ""
    ensures name.Some? && name.value != "" ==> l == name.value
  {
    if name.Some? && name.value != "" then name.value else "Unknown Part"
  }

  datatype ClefKind = Treble | Bass | Additional

  /** A label: the part's own name, or its name with a clef. */
  datatype Label = Own(name: Option<string>) | Clef(name: Option<string>, kind: ClefKind)

  function ClefText(k: ClefKind): string
  {
    match k
    case Treble => " (Treble Clef)"
    case Bass => " (Bass Clef)"
    case Additional => " (Additional Clef)"
  }

  /** The label as the text written into the part name. */
  function Text(l: Label): string
  {
    match l
    case Own(x) => OwnLabel(x)
    case Clef(x, k) => Show(x) + ClefText(k)
  }

  const BassMark := "Bass Clef"

  /** `'Bass Clef' in label` */
  predicate SaysBass(l: Label)
  {
    MarkIn(Text(l))
  }

  /** "Bass Clef" stands somewhere in s, tried from the left. */
  predicate MarkIn(s: string)
    decreases |s|
  {
    |s| >= |BassMark| && (s[..|BassMark|] == BassMark || MarkIn(s[1..]))
  }

  /** MarkIn is Python's substring test `'Bass Clef' in s`. */
  lemma {:induction false} MarkInContains(s: string)
    ensures MarkIn(s) <==> Contains(s, BassMark)
    decreases |s|
  {
    if |s| >= |BassMark| {
      MarkInContains(s[1..]);
      ContainsLater(s, BassMark);
      ContainsShift(s, BassMark);
      assert OccursAt(s, BassMark, 0) <==> s[..|BassMark|] == BassMark;
    }
  }

  /** An occurrence past the first position is one in the tail. */
  lemma {:induction false} ContainsLater(s: string, t: string)
    requires |s| >= |t| && s != []
    ensures Contains(s, t) ==> OccursAt(s, t, 0) || Contains(s[1..], t)
  {
    if Contains(s, t) && !OccursAt(s, t, 0) {
      var k :| 0 <= k <= |s| - |t| && OccursAt(s, t, k);
      assert k != 0;
      assert s[1..][k - 1..k - 1 + |t|] == s[k..k + |t|];
      assert OccursAt(s[1..], t, k - 1);
    }
  }

  /** An occurrence at the start or in the tail is one in s. */
  lemma {:induction false} ContainsShift(s: string, t: string)
    requires |s| >= |t| && s != []
    ensures OccursAt(s, t, 0) || Contains(s[1..], t) ==> Contains(s, t)
  {
    if Contains(s[1..], t) {
      var k :| 0 <= k <= |s| - 1 - |t| && OccursAt(s[1..], t, k);
      assert s[k + 1..k + 1 + |t|] == s[1..][k..k + |t|];
      assert OccursAt(s, t, k + 1);
    }
  }

  /**
   * The labels the first loop of label_consecutive_parts leaves, for the
   * names of the parts in order.  The part just reached is compared with
   * the one before it; the pair is relabelled Treble/Bass unless the
   * earlier label already says Bass Clef, in which case the new part is an
   * Additional Clef.
   */
  function Labels(names: seq<Option<string>>): (ls: seq<Label>)
    ensures |ls| == |names|
    decreases |names|
  {
    if names == [] then []
    else
      var n := |names| - 1;
      Next(Labels(names[..n]), names[n], n > 0 && names[n - 1] == names[n])
  }

  /**
   * One pass of that loop: the labels once the next part, named x, is
   * reached; `same` says the part before it has the same name.
   */
  function Next(prev: seq<Label>, x: Option<string>, same: bool): (ls: seq<Label>)
    ensures |ls| == |prev| + 1
  {
    if same && |prev| > 0 then
      if !SaysBass(prev[|prev| - 1]) then prev[..|prev| - 1] + [Clef(x, Treble), Clef(x, Bass)]
      else prev + [Clef(x, Additional)]
    else prev + [Own(x)]
  }

  /** The position where the run of equal names through j begins. */
  function RunStart(names: seq<Option<string>>, j: nat): (s: nat)
    requires j < |names|
    ensures s <= j
  {
    if j == 0 || names[j - 1] != names[j] then j else RunStart(names, j - 1)
  }

  /**
   * The label of position j told by its place in its run: a part alone
   * keeps its own name; in a run the parts are Treble, Bass, Treble, Bass,
   * ..., and the last part of a run of odd length is an Additional Clef.
   */
  function RunLabel(names: seq<Option<string>>, j: nat): Label
    requires j < |names|
  {
    ClefLabel(names[j], j - RunStart(names, j), j + 1 == |names| || names[j + 1] != names[j])
  }

  /** The label of a part named x at offset r of its run, which ends there when `last`. */
  function ClefLabel(x: Option<string>, r: nat, last: bool): Label
  {
    if r % 2 == 1 then Clef(x, Bass)
    else if !last then Clef(x, Treble)
    else if r == 0 then Own(x)
    else Clef(x, Additional)
  }

  /** A run start depends only on what comes before. */
  lemma {:induction false} RunStartPrefix(names: seq<Option<string>>, n: nat, j: nat)
    requires j < n <= |names|
    ensures RunStart(names[..n], j) == RunStart(names, j)
  {
    if j > 0 && names[j - 1] == names[j] {
      RunStartPrefix(names, n, j - 1);
    }
  }

  lemma BassSays(x: Option<string>)
    ensures SaysBass(Clef(x, Bass))
  {
    var t := Text(Clef(x, Bass));
    var k := |Show(x)| + 2;
    assert t == Show(x) + ClefText(Bass);
    assert ClefText(Bass)[2..11] == BassMark;
    assert t[k..k + 9] == ClefText(Bass)[2..11];
    assert OccursAt(t, BassMark, k);
    MarkInContains(t);
  }

  /** A text without a 'B' holds no "Bass Clef". */
  lemma {:induction false} NoB(s: string)
    requires 'B' !in s
    ensures !Contains(s, BassMark)
  {
    forall k | 0 <= k <= |s| - |BassMark|
      ensures !OccursAt(s, BassMark, k)
    {
      assert s[k] != BassMark[0];
    }
  }

  /** "Bass Clef" cannot straddle a name and a suffix that starts " (" and has no 'B'. */
  lemma {:induction false} NoBassAcross(x: string, suffix: string)
    requires !Contains(x, BassMark)
    requires |suffix| >= 2 && suffix[0] == ' ' && suffix[1] == '(' && 'B' !in suffix
    ensures !Contains(x + suffix, BassMark)
  {
    var s := x + suffix;
    forall k | 0 <= k <= |s| - |BassMark|
      ensures !OccursAt(s, BassMark, k)
    {
      if k + 9 <= |x| {
        assert x[k..k + 9] == s[k..k + 9];
        assert !OccursAt(x, BassMark, k);
      } else if k >= |x| {
        assert s[k] == suffix[k - |x|];
        assert s[k] != BassMark[0];
      } else if |x| - k == 4 {
        assert s[k + 5] == suffix[1];
        assert s[k + 5] != BassMark[5];
      } else {
        assert s[|x|] != BassMark[|x| - k];
      }
    }
  }

  lemma OwnNoBass(name: Option<string>)
    requires !Contains(Show(name), BassMark)
    ensures !SaysBass(Own(name))
  {
    if !(name.Some? && name.value != "") {
      NoB("Unknown Part");
    }
    MarkInContains(Text(Own(name)));
  }

  lemma AdditionalNoBass(name: Option<string>)
    requires !Contains(Show(name), BassMark)
    ensures !SaysBass(Clef(name, Additional))
  {
    NoBassAcross(Show(name), ClefText(Additional));
    MarkInContains(Text(Clef(name, Additional)));
  }

  /** Dropping the last name leaves the run label of every position but the last two. */
  lemma {:induction false} RunLabelPrefix(names: seq<Option<string>>, j: nat)
    requires j + 1 < |names| - 1
    ensures RunLabel(names[..|names| - 1], j) == RunLabel(names, j)
  {
    RunStartPrefix(names, |names| - 1, j);
  }

  /** The same for the one before last when the last name differs from it. */
  lemma {:induction false} RunLabelPrefixEnd(names: seq<Option<string>>)
    requires |names| >= 2 && names[|names| - 2] != names[|names| - 1]
    ensures RunLabel(names[..|names| - 1], |names| - 2) == RunLabel(names, |names| - 2)
  {
    RunStartPrefix(names, |names| - 1, |names| - 2);
  }

  /** `ls` gives every position of `names` its run label. */
  predicate RunLabelled(names: seq<Option<string>>, ls: seq<Label>)
  {
    |ls| == |names| && forall j :: 0 <= j < |names| ==> ls[j] == RunLabel(names, j)
  }

  /** No part name holds "Bass Clef" itself. */
  predicate NoBassNames(names: seq<Option<string>>)
  {
    forall x :: x in names ==> !Contains(Show(x), BassMark)
  }

  /**
   * When no part name contains "Bass Clef", the labels are exactly the
   * run pattern: alone, Treble/Bass pairs, Additional for an odd last one.
   */
  lemma {:induction false} LabelsByRun(names: seq<Option<string>>)
    requires NoBassNames(names)
    ensures RunLabelled(names, Labels(names))
    decreases |names|
  {
    if names != [] {
      var n := |names| - 1;
      NoBassPrefix(names);
      LabelsByRun(names[..n]);
      if n > 0 && names[n - 1] == names[n] {
        assert names[n] in names;
        StepSame(names, Labels(names[..n]));
      } else {
        StepAlone(names, Labels(names[..n]), Labels(names));
      }
    }
  }

  lemma {:induction false} NoBassPrefix(names: seq<Option<string>>)
    requires names != [] && NoBassNames(names)
    ensures NoBassNames(names[..|names| - 1])
  {
    forall x | x in names[..|names| - 1]
      ensures x in names
    {
      var j :| 0 <= j < |names| - 1 && names[..|names| - 1][j] == x;
      assert names[j] == x;
    }
  }

  /**
   * A part named like the one before it: an Additional Clef after a Bass
   * Clef, otherwise the two become a Treble/Bass pair.
   */
  lemma {:induction false} StepSame(names: seq<Option<string>>, prev: seq<Label>)
    requires |names| >= 2 && names[|names| - 2] == names[|names| - 1]
    requires !Contains(Show(names[|names| - 1]), BassMark)
    requires RunLabelled(names[..|names| - 1], prev)
    ensures RunLabelled(names, Next(prev, names[|names| - 1], true))
  {
    var s := RunStart(names, |names| - 2);
    if (|names| - 2 - s) % 2 == 1 {
      SameOdd(names, prev, s);
    } else {
      SameEven(names, prev, s);
    }
  }

  /** A repeated name at an even offset of its run, after a Bass Clef. */
  lemma {:induction false} SameOdd(names: seq<Option<string>>, prev: seq<Label>, s: nat)
    requires |names| >= 2 && names[|names| - 2] == names[|names| - 1]
    requires s == RunStart(names, |names| - 2) && (|names| - 2 - s) % 2 == 1
    requires RunLabelled(names[..|names| - 1], prev)
    ensures RunLabelled(names, Next(prev, names[|names| - 1], true))
  {
    var x := names[|names| - 1];
    LastRunLabel(names, prev);
    SameAfterBass(prev, x, |names| - 2 - s);
    StepAdditional(names, prev, Next(prev, x, true), s);
  }

  /** A repeated name at an odd offset of its run, after a Treble Clef or a part's own name. */
  lemma {:induction false} SameEven(names: seq<Option<string>>, prev: seq<Label>, s: nat)
    requires |names| >= 2 && names[|names| - 2] == names[|names| - 1]
    requires !Contains(Show(names[|names| - 1]), BassMark)
    requires s == RunStart(names, |names| - 2) && (|names| - 2 - s) % 2 == 0
    requires RunLabelled(names[..|names| - 1], prev)
    ensures RunLabelled(names, Next(prev, names[|names| - 1], true))
  {
    var x := names[|names| - 1];
    LastRunLabel(names, prev);
    SameAfterOther(prev, x, |names| - 2 - s);
    StepPair(names, prev, Next(prev, x, true), s);
  }

  /** The label the part before a repeated name has so far, told by its place in its run. */
  lemma {:induction false} LastRunLabel(names: seq<Option<string>>, prev: seq<Label>)
    requires |names| >= 2 && names[|names| - 2] == names[|names| - 1]
    requires RunLabelled(names[..|names| - 1], prev)
    ensures |prev| == |names| - 1
    ensures prev[|prev| - 1] == ClefLabel(names[|names| - 1], |names| - 2 - RunStart(names, |names| - 2), true)
  {
    var n := |names| - 1;
    assert prev[n - 1] == RunLabel(names[..n], n - 1);
    RunStartPrefix(names, n, n - 1);
  }

  /** A repeated name after a Bass Clef, at an odd offset of its run, is an Additional Clef. */
  lemma SameAfterBass(prev: seq<Label>, x: Option<string>, r: nat)
    requires |prev| > 0 && r % 2 == 1 && prev[|prev| - 1] == ClefLabel(x, r, true)
    ensures Next(prev, x, true) == prev + [Clef(x, Additional)]
  {
    BassSays(x);
  }

  /**
   * A repeated name after any other label, at an even offset of its run,
   * makes that label and itself a Treble/Bass pair.
   */
  lemma SameAfterOther(prev: seq<Label>, x: Option<string>, r: nat)
    requires |prev| > 0 && r % 2 == 0 && prev[|prev| - 1] == ClefLabel(x, r, true)
    requires !Contains(Show(x), BassMark)
    ensures Next(prev, x, true) == prev[..|prev| - 1] + [Clef(x, Treble), Clef(x, Bass)]
  {
    EvenNoBass(prev[|prev| - 1], x, r);
  }

  /** The last label of a run of even offset does not say Bass Clef. */
  lemma EvenNoBass(l: Label, x: Option<string>, r: nat)
    requires r % 2 == 0 && !Contains(Show(x), BassMark)
    requires l == ClefLabel(x, r, true)
    ensures !SaysBass(l)
  {
    if r == 0 {
      OwnNoBass(x);
    } else {
      AdditionalNoBass(x);
    }
  }

  /** A part whose name differs from the one before it keeps its own name for now. */
  lemma {:induction false} StepAlone(names: seq<Option<string>>, prev: seq<Label>, ls: seq<Label>)
    requires |names| > 0
    requires var n := |names| - 1; n == 0 || names[n - 1] != names[n]
    requires RunLabelled(names[..|names| - 1], prev)
    requires ls == prev + [Own(names[|names| - 1])]
    ensures RunLabelled(names, ls)
  {
    var n := |names| - 1;
    forall j | 0 <= j < |names|
      ensures ls[j] == RunLabel(names, j)
    {
      if j + 1 < n {
        RunLabelPrefix(names, j);
      } else if j + 1 == n {
        RunLabelPrefixEnd(names);
      } else {
        assert RunStart(names, j) == j;
      }
    }
  }

  /** The third, fifth, ... part of a run becomes an Additional Clef. */
  lemma {:induction false} StepAdditional(names: seq<Option<string>>, prev: seq<Label>, ls: seq<Label>, s: nat)
    requires |names| >= 2
    requires var n := |names| - 1; names[n - 1] == names[n]
    requires s == RunStart(names, |names| - 2) && (|names| - 2 - s) % 2 == 1
    requires RunLabelled(names[..|names| - 1], prev)
    requires ls == prev + [Clef(names[|names| - 1], Additional)]
    ensures RunLabelled(names, ls)
  {
    var n := |names| - 1;
    var p := names[..n];
    var r := n - 1 - s;
    assert RunStart(names, n) == s;
    assert (r + 1) % 2 == 0;
    forall j | 0 <= j < |names|
      ensures ls[j] == RunLabel(names, j)
    {
      if j + 1 < n {
        RunLabelPrefix(names, j);
      } else if j + 1 == n {
        RunStartPrefix(names, n, j);
        assert ls[j] == RunLabel(p, j) == ClefLabel(names[j], r, true);
        assert RunLabel(names, j) == ClefLabel(names[j], r, false);
      } else {
        assert RunLabel(names, j) == ClefLabel(names[j], r + 1, true);
      }
    }
  }

  /** A part that repeats the name of a part not yet a Bass Clef makes the two a Treble/Bass pair. */
  lemma {:induction false} StepPair(names: seq<Option<string>>, prev: seq<Label>, ls: seq<Label>, s: nat)
    requires |names| >= 2
    requires var n := |names| - 1; names[n - 1] == names[n]
    requires s == RunStart(names, |names| - 2) && (|names| - 2 - s) % 2 == 0
    requires RunLabelled(names[..|names| - 1], prev)
    requires var x := names[|names| - 1]; ls == prev[..|prev| - 1] + [Clef(x, Treble), Clef(x, Bass)]
    ensures RunLabelled(names, ls)
  {
    var n := |names| - 1;
    var r := n - 1 - s;
    assert RunStart(names, n) == s;
    assert (r + 1) % 2 == 1;
    forall j | 0 <= j < |names|
      ensures ls[j] == RunLabel(names, j)
    {
      if j + 1 < n {
        RunLabelPrefix(names, j);
        assert ls[j] == prev[j];
      } else if j + 1 == n {
        assert RunLabel(names, j) == ClefLabel(names[j], r, false);
      } else {
        assert RunLabel(names, j) == ClefLabel(names[j], r + 1, true);
      }
    }
  }

  /** A part whose name differs from both neighbours keeps it ("Unknown Part" for None or ""). */
  lemma {:induction false} LoneKeepsName(names: seq<Option<string>>, j: nat)
    requires NoBassNames(names)
    requires j < |names| && (j == 0 || names[j - 1] != names[j]) && (j + 1 == |names| || names[j + 1] != names[j])
    ensures Labels(names)[j] == Own(names[j])
  {
    LabelsByRun(names);
    assert RunStart(names, j) == j;
    assert RunLabel(names, j) == ClefLabel(names[j], 0, true);
  }

  /**
   * Two staves of one instrument (a piano's) become its treble and bass
   * clef, "Piano (Treble Clef)" and "Piano (Bass Clef)".
   */
  lemma TwoStaves(x: Option<string>)
    requires !Contains(Show(x), BassMark)
    ensures Labels([x, x]) == [Clef(x, Treble), Clef(x, Bass)]
    ensures Text(Labels([x, x])[0]) == Show(x) + " (Treble Clef)"
    ensures Text(Labels([x, x])[1]) == Show(x) + " (Bass Clef)"
  {
    assert [x, x][..1] == [x];
    assert [x][..0] == [];
    OwnNoBass(x);
  }

  /**
   * The Bass Clef test reads the label text: two parts whose own name
   * already holds "Bass Clef" are not made a pair; the second becomes an
   * Additional Clef.
   */
  lemma BassNamedStaves(x: Option<string>)
    requires x.Some? && Contains(x.value, BassMark)
    ensures Labels([x, x]) == [Own(x), Clef(x, Additional)]
  {
    assert [x, x][..1] == [x];
    assert [x][..0] == [];
    MarkInContains(x.value);
    assert x.value != "";
    assert SaysBass(Own(x));
  }

  /** The names of the parts, in order. */
  function Names(parts: seq<Part>): (ns: seq<Option<string>>)
    reads set p | p in parts
    ensures |ns| == |parts|
    ensures forall j :: 0 <= j < |parts| ==> ns[j] == parts[j].partName
  {
    if parts == [] then [] else [parts[0].partName] + Names(parts[1..])
  }

  /** A map holding a key is not empty. */
  lemma KeyedMap<K, V>(m: map<K, V>, k: K)
    requires k in m
    ensures |m| != 0
  {
    assert k in m.Keys;
  }

  /** One step of the first loop of label_consecutive_parts, on labels. */
  lemma {:induction false} LabelsStep(names: seq<Option<string>>, i: nat)
    requires i < |names|
    ensures Labels(names[..i + 1]) == Next(Labels(names[..i]), names[i], i > 0 && names[i - 1] == names[i])
  {
    assert names[..i + 1][..i] == names[..i];
  }

  /** Positions i and j of the score hold different part objects. */
  predicate Apart(parts: seq<Part>, i: nat, j: nat)
    requires i < |parts| && j < |parts|
  {
    parts[i] != parts[j]
  }

  /** The map gives the first n parts the first n labels of ls. */
  predicate Agree(parts: seq<Part>, m: map<Part, Label>, ls: seq<Label>, n: nat)
    requires n <= |parts| && n <= |ls|
  {
    forall j :: 0 <= j < n ==> parts[j] in m && m[parts[j]] == ls[j]
  }

  /** Labelling the next part keeps the earlier ones, since the parts are distinct. */
  lemma {:induction false} AgreeExtend(parts: seq<Part>, m: map<Part, Label>, ls: seq<Label>, v: Label)
    requires forall i, j :: 0 <= i < j < |parts| ==> Apart(parts, i, j)
    requires |ls| < |parts| && Agree(parts, m, ls, |ls|)
    ensures Agree(parts, m[parts[|ls|] := v], ls + [v], |ls| + 1)
  {
    forall j | 0 <= j < |ls|
      ensures parts[j] != parts[|ls|]
    {
      assert Apart(parts, j, |ls|);
    }
  }

  /** Relabelling the last part and labelling the next keeps the earlier ones. */
  lemma {:induction false} AgreePair(parts: seq<Part>, m: map<Part, Label>, ls: seq<Label>, u: Label, v: Label)
    requires forall i, j :: 0 <= i < j < |parts| ==> Apart(parts, i, j)
    requires 0 < |ls| < |parts| && Agree(parts, m, ls, |ls|)
    ensures Agree(parts, m[parts[|ls| - 1] := u][parts[|ls|] := v], ls[..|ls| - 1] + [u, v], |ls| + 1)
  {
    var n := |ls|;
    forall j | 0 <= j < n - 1
      ensures parts[j] != parts[n - 1] && parts[j] != parts[n]
    {
      assert Apart(parts, j, n - 1);
      assert Apart(parts, j, n);
    }
    assert Apart(parts, n - 1, n);
  }

  /**
   * The first loop of label_consecutive_parts: the map from each part to
   * its label.  Every part is given one.  The map holds each label as a
   * Label; the string the source stores is its Text.
   */
  method CollectLabels(parts: seq<Part>) returns (partLabels: map<Part, Label>)
    requires forall i, j :: 0 <= i < j < |parts| ==> Apart(parts, i, j)
    ensures forall j :: 0 <= j < |parts| ==> parts[j] in partLabels
    ensures forall j :: 0 <= j < |parts| ==> partLabels[parts[j]] == Labels(Names(parts))[j]
  {
    ghost var names := Names(parts);
    ghost var ls: seq<Label> := [];
    partLabels := map[];
    for i := 0 to |parts|
      invariant ls == Labels(names[..i])
      invariant Agree(parts, partLabels, ls, i)
    {
      var part := parts[i];
      LabelsStep(names, i);
      ghost var prev := ls;
      ls := Next(prev, names[i], i > 0 && names[i - 1] == names[i]);
      if i > 0 && parts[i - 1].partName == part.partName {
        KeyedMap(partLabels, parts[i - 1]);
        if |partLabels| == 0 || !SaysBass(partLabels[parts[i - 1]]) {
          AgreePair(parts, partLabels, prev, Clef(part.partName, Treble), Clef(part.partName, Bass));
          partLabels := partLabels[parts[i - 1] := Clef(parts[i - 1].partName, Treble)];
          partLabels := partLabels[part := Clef(part.partName, Bass)];
        } else {
          AgreeExtend(parts, partLabels, prev, Clef(part.partName, Additional));
          partLabels := partLabels[part := Clef(part.partName, Additional)];
        }
      } else {
        AgreeExtend(parts, partLabels, prev, Own(part.partName));
        partLabels := partLabels[part := Own(part.partName)];
      }
    }
    assert names[..|parts|] == names;
  }

  /**
   * The second loop of label_consecutive_parts: each part's name becomes
   * its label, "Unknown Part" when the map has none.
   */
  method WriteLabels(parts: seq<Part>, partLabels: map<Part, Label>)
    requires forall i, j :: 0 <= i < j < |parts| ==> Apart(parts, i, j)
    modifies set p | p in parts
    ensures forall j :: 0 <= j < |parts| ==>
      parts[j].partName == Some(if parts[j] in partLabels then Text(partLabels[parts[j]]) else "Unknown Part")
  {
    for i := 0 to |parts|
      invariant forall j :: 0 <= j < i ==>
        parts[j].partName == Some(if parts[j] in partLabels then Text(partLabels[parts[j]]) else "Unknown Part")
    {
      forall j | 0 <= j < i
        ensures parts[j] != parts[i]
      {
        assert Apart(parts, j, i);
      }
      var given := if parts[i] in partLabels then Text(partLabels[parts[i]]) else "Unknown Part";
      parts[i].partName := Some(given);
    }
  }

  /**
   * label_consecutive_parts: every part's name becomes its label, as
   * Labels gives it for the names the parts had.  The default "Unknown
   * Part" of the second loop is never taken, since every part is in the map.
   */
  method LabelConsecutiveParts(parts: seq<Part>)
    requires forall i, j :: 0 <= i < j < |parts| ==> Apart(parts, i, j)
    modifies set p | p in parts
    ensures forall j :: 0 <= j < |parts| ==> parts[j].partName == Some(Text(Labels(old(Names(parts)))[j]))
  {
    var partLabels := CollectLabels(parts);
    WriteLabels(parts, partLabels);
  }
}
