/**
 * The chord table of the analyzer window: the rows extracted from a score,
 * the filters typed above the table, and the two views of the drop-down
 * ("By Instrument" keeps load order, "By Measure and Beat" sorts first).
 *
 * A row's part is the part name the labelling gave it; beats are exact
 * rationals; `isdigit` is ASCII 0-9.
 */
module ChordTable {
  import opened Options
  import opened Strings
  import opened Subsequences

  /** (part, measure_number, offset, chord_name, notes). */
  datatype Row = Row(part: string, measure: int, beat: real, chord: string, notes: string)

  /** The texts of the six filter entries, as typed. */
  datatype Filters = Filters(part: string, measureFrom: string, measureUntil: string,
                             beatFrom: string, beatUntil: string, chord: string)

  /** Every filter entry empty. */
  const NoFilters := Filters("", "", "", "", "", "")

  /** `(t.isdigit() and int(t) <= v or not t)` */
  predicate AtLeast(t: string, v: real)
  {
    (IsDigits(t) && DigitsValue(t) as real <= v) || t == ""
  }

  /** `(t.isdigit() and v <= int(t) or not t)` */
  predicate AtMost(t: string, v: real)
  {
    (IsDigits(t) && v <= DigitsValue(t) as real) || t == ""
  }

  /** `(f.lower() in name.lower() if f.lower() else True)` */
  predicate Mentions(name: string, f: string)
  {
    Lower(f) != "" ==> Contains(Lower(name), Lower(f))
  }

  /** The condition of the comprehension in apply_filters_helper. */
  predicate Matches(r: Row, f: Filters)
  {
    Mentions(r.part, f.part)
    && AtLeast(f.measureFrom, r.measure as real) && AtMost(f.measureUntil, r.measure as real)
    && AtLeast(f.beatFrom, r.beat) && AtMost(f.beatUntil, r.beat)
    && Mentions(r.chord, f.chord)
  }

  /** apply_filters_helper: the rows that match, in their order. */
  function FilterRows(data: seq<Row>, f: Filters): (shown: seq<Row>)
    ensures |shown| <= |data|
    ensures forall i :: 0 <= i < |shown| ==> Matches(shown[i], f)
  {
    if data == [] then []
    else (if Matches(data[0], f) then [data[0]] else []) + FilterRows(data[1..], f)
  }

  /** A row is shown exactly when it is in the data and matches. */
  lemma {:induction false} FilterMembers(data: seq<Row>, f: Filters)
    ensures forall r :: r in FilterRows(data, f) <==> r in data && Matches(r, f)
  {
    if data != [] {
      FilterMembers(data[1..], f);
      assert data == [data[0]] + data[1..];
    }
  }

  /** The rows shown are the data with some rows left out, in their order. */
  lemma {:induction false} FilterSubseq(data: seq<Row>, f: Filters)
    ensures IsSubseq(FilterRows(data, f), data)
  {
    if data != [] {
      FilterSubseq(data[1..], f);
      var shown := FilterRows(data, f);
      if Matches(data[0], f) {
        assert shown[0] == data[0] && shown[1..] == FilterRows(data[1..], f);
      } else {
        assert shown == FilterRows(data[1..], f);
        SubseqCons(shown, data);
      }
    }
  }

  /** With every entry empty, the whole data is shown. */
  lemma {:induction false} NoFiltersShowAll(data: seq<Row>)
    ensures FilterRows(data, NoFilters) == data
  {
    if data != [] {
      NoFiltersShowAll(data[1..]);
      assert Lower("") == "";
      assert Matches(data[0], NoFilters);
      assert data == [data[0]] + data[1..];
    }
  }

  /** A bound entry holding anything but digits hides every row. */
  lemma {:induction false} BadBoundShowsNothing(data: seq<Row>, f: Filters)
    requires var b := f.measureFrom; b != "" && !IsDigits(b)
    ensures FilterRows(data, f) == []
  {
    if data != [] {
      BadBoundShowsNothing(data[1..], f);
    }
  }

  /** The same for the three other bounds: each one is checked the same way. */
  lemma BadBoundsRejectRow(r: Row, f: Filters)
    requires exists b :: b in [f.measureFrom, f.measureUntil, f.beatFrom, f.beatUntil] && b != "" && !IsDigits(b)
    ensures !Matches(r, f)
  {
    var b :| b in [f.measureFrom, f.measureUntil, f.beatFrom, f.beatUntil] && b != "" && !IsDigits(b);
  }

  /** Bounds are inclusive: with digit bounds, the measure test is from <= measure <= until. */
  lemma MeasureRange(r: Row, f: Filters)
    requires IsDigits(f.measureFrom) && IsDigits(f.measureUntil)
    ensures AtLeast(f.measureFrom, r.measure as real) && AtMost(f.measureUntil, r.measure as real)
            <==> DigitsValue(f.measureFrom) <= r.measure <= DigitsValue(f.measureUntil)
  {
  }

  /** The part and chord filters ignore case on both sides: "BASS" finds "Bass (Bass Clef)". */
  lemma FilterIgnoresCase(r1: Row, r2: Row, f1: Filters, f2: Filters)
    requires Lower(r1.part) == Lower(r2.part) && Lower(r1.chord) == Lower(r2.chord)
    requires r1.measure == r2.measure && r1.beat == r2.beat
    requires Lower(f1.part) == Lower(f2.part) && Lower(f1.chord) == Lower(f2.chord)
    requires f1.measureFrom == f2.measureFrom && f1.measureUntil == f2.measureUntil
    requires f1.beatFrom == f2.beatFrom && f1.beatUntil == f2.beatUntil
    ensures Matches(r1, f1) <==> Matches(r2, f2)
  {
  }

  /** Lowercasing is idempotent. */
  lemma LowerTwice(s: string)
    ensures Lower(Lower(s)) == Lower(s)
  {
    forall i | 0 <= i < |s|
      ensures Lower(Lower(s))[i] == Lower(s)[i]
    {
      var c := s[i];
      assert IsUpper(ToLower(c)) ==> IsUpper(c);
    }
  }

  /** A part or chord filter typed in capitals finds the same rows as the same filter in lower case. */
  lemma FilterLowered(data: seq<Row>, f: Filters)
    ensures FilterRows(data, f) == FilterRows(data, f.(part := Lower(f.part), chord := Lower(f.chord)))
  {
    var g := f.(part := Lower(f.part), chord := Lower(f.chord));
    LowerTwice(f.part);
    LowerTwice(f.chord);
    forall r | r in data
      ensures Matches(r, f) <==> Matches(r, g)
    {
      FilterIgnoresCase(r, r, f, g);
    }
    FilterSameMatches(data, f, g);
  }

  /** Two filters that agree on every row of the data show the same rows. */
  lemma {:induction false} FilterSameMatches(data: seq<Row>, f: Filters, g: Filters)
    requires forall r :: r in data ==> (Matches(r, f) <==> Matches(r, g))
    ensures FilterRows(data, f) == FilterRows(data, g)
  {
    if data != [] {
      assert data[0] in data;
      assert forall r :: r in data[1..] ==> r in data;
      FilterSameMatches(data[1..], f, g);
    }
  }

  // ------------------------------------------------------------------ sorting

  /** The sort key (measure, beat), compared as Python compares tuples. */
  predicate KeyLe(a: Row, b: Row)
  {
    a.measure < b.measure || (a.measure == b.measure && a.beat <= b.beat)
  }

  predicate SameKey(a: Row, b: Row)
  {
    a.measure == b.measure && a.beat == b.beat
  }

  predicate Sorted(s: seq<Row>)
  {
    forall i, j :: 0 <= i < j < |s| ==> KeyLe(s[i], s[j])
  }

  /** x placed in front of the first row whose key is not smaller. */
  function Insert(x: Row, s: seq<Row>): (r: seq<Row>)
    ensures |r| == |s| + 1
  {
    if s == [] then [x]
    else if KeyLe(x, s[0]) then [x] + s
    else [s[0]] + Insert(x, s[1..])
  }

  /** `sorted(data, key=lambda x: (x[1], x[2]))`: a stable sort by measure, then beat. */
  function SortRows(data: seq<Row>): (sorted: seq<Row>)
    ensures |sorted| == |data|
  {
    if data == [] then [] else Insert(data[0], SortRows(data[1..]))
  }

  /** The rows with a given key, in their order. */
  function WithKey(s: seq<Row>, m: int, b: real): seq<Row>
  {
    if s == [] then [] else (if s[0].measure == m && s[0].beat == b then [s[0]] else []) + WithKey(s[1..], m, b)
  }

  /** A row no later than every row of a sorted list can go in front of it. */
  lemma SortedCons(h: Row, t: seq<Row>)
    requires Sorted(t)
    requires forall y :: y in t ==> KeyLe(h, y)
    ensures Sorted([h] + t)
  {
    var s := [h] + t;
    forall i, j | 0 <= i < j < |s|
      ensures KeyLe(s[i], s[j])
    {
      assert s[j] == t[j - 1];
      if i > 0 {
        assert s[i] == t[i - 1];
      }
    }
  }

  lemma {:induction false} InsertCount(x: Row, s: seq<Row>)
    ensures multiset(Insert(x, s)) == multiset(s) + multiset{x}
  {
    if s != [] && !KeyLe(x, s[0]) {
      InsertCount(x, s[1..]);
      assert s == [s[0]] + s[1..];
    }
  }

  lemma {:induction false} InsertSorted(x: Row, s: seq<Row>)
    requires Sorted(s)
    ensures Sorted(Insert(x, s))
  {
    if s == [] {
    } else if KeyLe(x, s[0]) {
      forall y | y in s
        ensures KeyLe(x, y)
      {
        var j :| 0 <= j < |s| && s[j] == y;
        assert j == 0 || KeyLe(s[0], s[j]);
      }
      SortedCons(x, s);
    } else {
      var t := Insert(x, s[1..]);
      InsertSorted(x, s[1..]);
      InsertCount(x, s[1..]);
      forall y | y in t
        ensures KeyLe(s[0], y)
      {
        assert y in multiset(t);
        if y != x {
          assert y in multiset(s[1..]);
          var j :| 0 <= j < |s[1..]| && s[1..][j] == y;
          assert s[j + 1] == y;
        }
      }
      SortedCons(s[0], t);
    }
  }

  /** The sorted rows are ordered by (measure, beat) and are the same rows, each as often. */
  lemma {:induction false} SortRowsSorted(data: seq<Row>)
    ensures Sorted(SortRows(data))
    ensures multiset(SortRows(data)) == multiset(data)
  {
    if data != [] {
      SortRowsSorted(data[1..]);
      InsertSorted(data[0], SortRows(data[1..]));
      InsertCount(data[0], SortRows(data[1..]));
      assert data == [data[0]] + data[1..];
    }
  }

  /** Inserting x changes the rows of another key not at all, and puts x first among the rows of its own. */
  lemma {:induction false} InsertWithKey(x: Row, s: seq<Row>, m: int, b: real)
    ensures WithKey(Insert(x, s), m, b) == (if x.measure == m && x.beat == b then [x] else []) + WithKey(s, m, b)
  {
    if s == [] {
      WithKeyCons(x, [], m, b);
    } else if KeyLe(x, s[0]) {
      WithKeyCons(x, s, m, b);
    } else {
      InsertWithKey(x, s[1..], m, b);
      WithKeyCons(s[0], Insert(x, s[1..]), m, b);
      WithKeyCons(s[0], s[1..], m, b);
      assert s == [s[0]] + s[1..];
      assert !(s[0].measure == m && s[0].beat == b && x.measure == m && x.beat == b);
    }
  }

  lemma WithKeyCons(h: Row, t: seq<Row>, m: int, b: real)
    ensures WithKey([h] + t, m, b) == (if h.measure == m && h.beat == b then [h] else []) + WithKey(t, m, b)
  {
    assert ([h] + t)[1..] == t;
  }

  /** The sort is stable: the rows of each key come out in the order they went in. */
  lemma {:induction false} SortRowsStable(data: seq<Row>, m: int, b: real)
    ensures WithKey(SortRows(data), m, b) == WithKey(data, m, b)
  {
    if data != [] {
      SortRowsStable(data[1..], m, b);
      InsertWithKey(data[0], SortRows(data[1..]), m, b);
    }
  }

  /** Filtering keeps the order: the rows shown from a sorted list are sorted. */
  lemma FilterKeepsSorted(s: seq<Row>, f: Filters)
    requires Sorted(s)
    ensures Sorted(FilterRows(s, f))
  {
    var shown := FilterRows(s, f);
    FilterSubseq(s, f);
    forall i, j | 0 <= i < j < |shown|
      ensures KeyLe(shown[i], shown[j])
    {
      SubseqIndices(shown, s, i, j);
    }
  }

  /** Two positions of a subsequence come from two positions of the sequence, in the same order. */
  lemma {:induction false} SubseqIndices(a: seq<Row>, s: seq<Row>, i: nat, j: nat)
    requires IsSubseq(a, s) && i < j < |a|
    ensures exists p, q :: 0 <= p < q < |s| && s[p] == a[i] && s[q] == a[j]
    decreases |s|
  {
    assert s != [];
    if a[0] == s[0] {
      if i == 0 {
        SubseqIndex(a[1..], s[1..], j - 1);
        var q :| 0 <= q < |s[1..]| && s[1..][q] == a[1..][j - 1];
        assert s[0] == a[i] && s[q + 1] == a[j];
      } else {
        SubseqIndices(a[1..], s[1..], i - 1, j - 1);
        var p, q :| 0 <= p < q < |s[1..]| && s[1..][p] == a[1..][i - 1] && s[1..][q] == a[1..][j - 1];
        assert s[p + 1] == a[i] && s[q + 1] == a[j];
      }
    } else {
      SubseqIndices(a, s[1..], i, j);
      var p, q :| 0 <= p < q < |s[1..]| && s[1..][p] == a[i] && s[1..][q] == a[j];
      assert s[p + 1] == a[i] && s[q + 1] == a[j];
    }
  }

  lemma {:induction false} SubseqIndex(a: seq<Row>, s: seq<Row>, i: nat)
    requires IsSubseq(a, s) && i < |a|
    ensures exists q :: 0 <= q < |s| && s[q] == a[i]
    decreases |s|
  {
    assert s != [];
    if a[0] == s[0] {
      if i > 0 {
        SubseqIndex(a[1..], s[1..], i - 1);
        var q :| 0 <= q < |s[1..]| && s[1..][q] == a[1..][i - 1];
        assert s[q + 1] == a[i];
      }
    } else {
      SubseqIndex(a, s[1..], i);
      var q :| 0 <= q < |s[1..]| && s[1..][q] == a[i];
      assert s[q + 1] == a[i];
    }
  }

  /** The filter keeps each row as often as it occurs, when it matches. */
  lemma {:induction false} FilterCount(data: seq<Row>, f: Filters, r: Row)
    ensures multiset(FilterRows(data, f))[r] == if Matches(r, f) then multiset(data)[r] else 0
  {
    if data != [] {
      FilterCount(data[1..], f, r);
      FilterCons(data[0], data[1..], f);
      assert data == [data[0]] + data[1..];
    }
  }

  // ------------------------------------------------------------------ the views

  /**
   * apply_filters for the drop-down value `option`: the rows the table then
   * shows, or None for a value that is neither view, which leaves the table
   * as it was.
   */
  function ApplyFilters(option: string, f: Filters, data: seq<Row>): (shown: Option<seq<Row>>)
    ensures shown.Some? <==> option == "By Instrument" || option == "By Measure and Beat"
    ensures shown.Some? ==> |shown.value| <= |data|
  {
    if option == "By Instrument" then Some(FilterRows(data, f))
    else if option == "By Measure and Beat" then Some(FilterRows(SortRows(data), f))
    else None
  }

  /**
   * "By Measure and Beat" shows the rows that "By Instrument" shows, each as
   * often, ordered by (measure, beat), rows of equal key in load order.
   */
  lemma MeasureViewSorts(f: Filters, data: seq<Row>, m: int, b: real)
    ensures var byMeasure := ApplyFilters("By Measure and Beat", f, data).value;
      var byInstrument := ApplyFilters("By Instrument", f, data).value;
      Sorted(byMeasure) && multiset(byMeasure) == multiset(byInstrument)
      && WithKey(byMeasure, m, b) == WithKey(byInstrument, m, b)
  {
    var sorted := SortRows(data);
    SortRowsSorted(data);
    FilterKeepsSorted(sorted, f);
    forall r
      ensures multiset(FilterRows(sorted, f))[r] == multiset(FilterRows(data, f))[r]
    {
      FilterCount(sorted, f, r);
      FilterCount(data, f, r);
    }
    assert multiset(FilterRows(sorted, f)) == multiset(FilterRows(data, f));
    SortRowsStable(data, m, b);
    FilterWithKey(sorted, f, m, b);
    FilterWithKey(data, f, m, b);
  }

  /** Filtering and picking a key commute. */
  lemma {:induction false} FilterWithKey(s: seq<Row>, f: Filters, m: int, b: real)
    ensures WithKey(FilterRows(s, f), m, b) == FilterRows(WithKey(s, m, b), f)
  {
    if s != [] {
      FilterWithKey(s[1..], f, m, b);
      if Matches(s[0], f) {
        WithKeyCons(s[0], FilterRows(s[1..], f), m, b);
      } else {
        assert FilterRows(s, f) == FilterRows(s[1..], f);
      }
      if s[0].measure == m && s[0].beat == b {
        FilterCons(s[0], WithKey(s[1..], m, b), f);
      } else {
        assert WithKey(s, m, b) == WithKey(s[1..], m, b);
      }
    }
  }

  lemma FilterCons(h: Row, t: seq<Row>, f: Filters)
    ensures FilterRows([h] + t, f) == (if Matches(h, f) then [h] else []) + FilterRows(t, f)
  {
    assert ([h] + t)[1..] == t;
  }
}
