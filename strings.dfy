/**
 * The few pieces of Python's string behaviour that the analyzer relies on:
 * ASCII digits and letters, str.isdigit, str.strip, str.split and str.join
 * with a fixed separator, substring tests (`t in s`), str.replace with an
 * empty replacement, and the int <-> str conversions of small integers.
 */
module Strings {
  import opened Subsequences

  /** `c.isdigit()` restricted to the ASCII digits. */
  predicate IsDigit(c: char) { '0' <= c <= '9' }

  predicate IsLower(c: char) { 'a' <= c <= 'z' }

  predicate IsUpper(c: char) { 'A' <= c <= 'Z' }

  function ToUpper(c: char): (u: char)
    ensures IsLower(c) ==> IsUpper(u) && u as int == c as int - 32
    ensures !IsLower(c) ==> u == c
  {
    if IsLower(c) then (c as int - 32) as char else c
  }

  function ToLower(c: char): (l: char)
    ensures IsUpper(c) ==> IsLower(l) && l as int == c as int + 32
    ensures !IsUpper(c) ==> l == c
  {
    if IsUpper(c) then (c as int + 32) as char else c
  }

  /** `s.lower()` on ASCII letters; every other character is kept. */
  function Lower(s: string): (r: string)
    ensures |r| == |s|
    ensures forall i :: 0 <= i < |s| ==> r[i] == ToLower(s[i])
  {
    if s == [] then [] else [ToLower(s[0])] + Lower(s[1..])
  }

  predicate HasDigit(s: string) { exists i :: 0 <= i < |s| && IsDigit(s[i]) }

  predicate AllDigits(s: string) { forall i :: 0 <= i < |s| ==> IsDigit(s[i]) }

  /** `s.isdigit()`: non-empty and made of digits only. */
  predicate IsDigits(s: string) { |s| > 0 && AllDigits(s) }

  /** The characters for which Python's str.isspace() holds. */
  predicate IsSpace(c: char)
  {
    c == ' ' || '\t' <= c <= '\r' || '\U{1c}' <= c <= '\U{1f}' || c == '\U{85}' || c == '\U{a0}'
    || c == '\U{1680}' || '\U{2000}' <= c <= '\U{200a}' || c == '\U{2028}' || c == '\U{2029}'
    || c == '\U{202f}' || c == '\U{205f}' || c == '\U{3000}'
  }

  /** `s.lstrip()`: s without its leading white space. */
  function TrimLeft(s: string): (r: string)
    ensures |r| <= |s| && r == s[|s| - |r|..]
    ensures r == [] || !IsSpace(r[0])
  {
    if s != [] && IsSpace(s[0]) then TrimLeft(s[1..]) else s
  }

  /** `s.rstrip()`: s without its trailing white space. */
  function TrimRight(s: string): (r: string)
    ensures |r| <= |s| && r == s[..|r|]
    ensures r == [] || !IsSpace(r[|r| - 1])
  {
    if s != [] && IsSpace(s[|s| - 1]) then TrimRight(s[..|s| - 1]) else s
  }

  /** Only white space is cut from the front. */
  lemma {:induction false} TrimLeftCutsSpace(s: string)
    ensures forall i :: 0 <= i < |s| - |TrimLeft(s)| ==> IsSpace(s[i])
  {
    if s != [] && IsSpace(s[0]) {
      var t := s[1..];
      TrimLeftCutsSpace(t);
      assert TrimLeft(s) == TrimLeft(t);
      forall i | 1 <= i < |s| - |TrimLeft(s)|
        ensures IsSpace(s[i])
      {
        assert s[i] == t[i - 1];
      }
    }
  }

  /** Only white space is cut from the back. */
  lemma {:induction false} TrimRightCutsSpace(s: string)
    ensures forall i :: |TrimRight(s)| <= i < |s| ==> IsSpace(s[i])
  {
    if s != [] && IsSpace(s[|s| - 1]) {
      var t := s[..|s| - 1];
      TrimRightCutsSpace(t);
      assert TrimRight(s) == TrimRight(t);
      forall i | |TrimRight(s)| <= i < |s| - 1
        ensures IsSpace(s[i])
      {
        assert s[i] == t[i];
      }
    }
  }

  /** `s.strip()`: the longest infix with no white space at either end. */
  function Strip(s: string): (r: string)
    ensures r == [] || (!IsSpace(r[0]) && !IsSpace(r[|r| - 1]))
    ensures Contains(s, r)
  {
    var r := TrimRight(TrimLeft(s));
    StripWitness(s, r);
    r
  }

  /** Strip cuts white space only: everything around the result in s is white space. */
  lemma StripCutsSpace(s: string)
    ensures var r := Strip(s);
      exists i :: OccursAt(s, r, i) && (forall j :: 0 <= j < i ==> IsSpace(s[j]))
                  && (forall j :: i + |r| <= j < |s| ==> IsSpace(s[j]))
  {
    StripWitness(s, Strip(s));
  }

  /** Where the stripped text stands in s, and that only white space lies around it. */
  lemma StripWitness(s: string, r: string)
    requires r == TrimRight(TrimLeft(s))
    ensures OccursAt(s, r, |s| - |TrimLeft(s)|)
    ensures forall j :: 0 <= j < |s| - |TrimLeft(s)| ==> IsSpace(s[j])
    ensures forall j :: |s| - |TrimLeft(s)| + |r| <= j < |s| ==> IsSpace(s[j])
  {
    var l := TrimLeft(s);
    var i := |s| - |l|;
    TrimLeftCutsSpace(s);
    TrimRightCutsSpace(l);
    SuffixPrefix(s, l, r);
  }

  /** A prefix r of a suffix l of s stands in s where l starts. */
  lemma SuffixPrefix(s: string, l: string, r: string)
    requires |l| <= |s| && l == s[|s| - |l|..] && |r| <= |l| && r == l[..|r|]
    ensures OccursAt(s, r, |s| - |l|)
    ensures forall j :: |s| - |l| <= j < |s| ==> s[j] == l[j - (|s| - |l|)]
  {
  }

  /** `s.split(sep)` for a one-character separator. */
  function Split(s: string, sep: char): (parts: seq<string>)
    ensures |parts| >= 1
    ensures forall i :: 0 <= i < |parts| ==> sep !in parts[i]
  {
    if s == [] then [""]
    else
      var rest := Split(s[1..], sep);
      if s[0] == sep then [""] + rest
      else [[s[0]] + rest[0]] + rest[1..]
  }

  /** `sep.join(parts)`. */
  function Join(parts: seq<string>, sep: string): string
  {
    if parts == [] then ""
    else if |parts| == 1 then parts[0]
    else parts[0] + sep + Join(parts[1..], sep)
  }

  /** Joining the pieces of a split with the separator gives back the string. */
  lemma {:induction false} JoinSplit(s: string, sep: char)
    ensures Join(Split(s, sep), [sep]) == s
  {
    if s != [] {
      var rest := Split(s[1..], sep);
      JoinSplit(s[1..], sep);
      var parts := Split(s, sep);
      assert s == [s[0]] + s[1..];
      if s[0] == sep {
        assert parts[1..] == rest;
      } else {
        assert parts[1..] == rest[1..];
        if |rest| > 1 {
          assert Join(rest, [sep]) == rest[0] + [sep] + Join(rest[1..], [sep]);
        }
      }
    }
  }

  /** Python's `t in s` for strings: t occurs somewhere in s. */
  predicate Contains(s: string, t: string)
  {
    exists k :: 0 <= k <= |s| - |t| && OccursAt(s, t, k)
  }

  /** t stands in s at position k. */
  predicate OccursAt(s: string, t: string, k: int)
  {
    0 <= k <= |s| - |t| && s[k..k + |t|] == t
  }

  /**
   * `s.replace(p, "")` for a non-empty p: scanning left to right, every
   * occurrence of p that does not overlap an earlier removed one is deleted.
   */
  function RemoveAll(s: string, p: string): (r: string)
    requires |p| > 0
    ensures |r| <= |s|
    decreases |s|
  {
    if |s| < |p| then s
    else if s[..|p|] == p then RemoveAll(s[|p|..], p)
    else [s[0]] + RemoveAll(s[1..], p)
  }

  /** A pattern that does not occur is not removed: the text comes back unchanged. */
  lemma {:induction false} RemoveAllAbsent(x: string, p: string)
    requires |p| > 0 && !Contains(x, p)
    ensures RemoveAll(x, p) == x
    decreases |x|
  {
    if |x| >= |p| {
      assert !OccursAt(x, p, 0);
      assert x[..|p|] != p;
      assert !Contains(x[1..], p) by {
        forall k | 0 <= k <= |x[1..]| - |p|
          ensures !OccursAt(x[1..], p, k)
        {
          assert x[1..][k..k + |p|] == x[k + 1..k + 1 + |p|];
          assert !OccursAt(x, p, k + 1);
        }
      }
      RemoveAllAbsent(x[1..], p);
      assert x == [x[0]] + x[1..];
    }
  }

  /** Removing occurrences only leaves characters out; the rest keep their order. */
  lemma {:induction false} RemoveAllSubseq(x: string, p: string)
    requires |p| > 0
    ensures IsSubseq(RemoveAll(x, p), x)
    decreases |x|
  {
    if |x| < |p| {
      SubseqRefl(x);
    } else if x[..|p|] == p {
      RemoveAllSubseq(x[|p|..], p);
      SubseqDropPrefix(RemoveAll(x[|p|..], p), x, |p|);
    } else {
      RemoveAllSubseq(x[1..], p);
      var r := RemoveAll(x, p);
      assert r[0] == x[0] && r[1..] == RemoveAll(x[1..], p);
    }
  }

  /** A text a digit-free head starts with is never part of a removed run of digits. */
  lemma {:induction false} RemoveAllSkip(head: string, y: string, p: string)
    requires !HasDigit(head) && IsDigits(p)
    ensures RemoveAll(head + y, p) == head + RemoveAll(y, p)
    decreases |head|
  {
    if head != [] {
      var x := head + y;
      var h := head[1..];
      assert !HasDigit(h) by {
        forall i | 0 <= i < |h| ensures !IsDigit(h[i]) {
          assert h[i] == head[i + 1];
        }
      }
      RemoveAllSkip(h, y, p);
      assert x[1..] == h + y;
      if |x| < |p| {
        assert RemoveAll(x, p) == x;
        assert RemoveAll(y, p) == y;
      } else {
        assert x[..|p|][0] == head[0] && !IsDigit(head[0]) && IsDigit(p[0]);
        assert RemoveAll(x, p) == [x[0]] + RemoveAll(h + y, p);
        assert head + RemoveAll(y, p) == [head[0]] + (h + RemoveAll(y, p));
      }
    } else {
      assert head + y == y;
    }
  }

  /** s with its digits left out. */
  function NonDigits(s: string): (r: string)
    ensures |r| <= |s|
    ensures !HasDigit(r)
  {
    if s == [] then []
    else
      var rest := NonDigits(s[1..]);
      var r := (if IsDigit(s[0]) then [] else [s[0]]) + rest;
      assert forall i :: 0 < i < |r| && !IsDigit(s[0]) ==> r[i] == rest[i - 1];
      r
  }

  lemma {:induction false} NonDigitsAppend(a: string, b: string)
    ensures NonDigits(a + b) == NonDigits(a) + NonDigits(b)
    decreases |a|
  {
    if a == [] {
      assert a + b == b;
    } else {
      var h := if IsDigit(a[0]) then [] else [a[0]];
      calc {
        NonDigits(a + b);
        == { assert (a + b)[0] == a[0] && (a + b)[1..] == a[1..] + b; }
        h + NonDigits(a[1..] + b);
        == { NonDigitsAppend(a[1..], b); }
        h + (NonDigits(a[1..]) + NonDigits(b));
      }
    }
  }

  /** A text of digits has nothing left; a digit-free text is kept whole. */
  lemma {:induction false} NonDigitsOf(s: string)
    ensures AllDigits(s) ==> NonDigits(s) == []
    ensures !HasDigit(s) ==> NonDigits(s) == s
    decreases |s|
  {
    if s != [] {
      NonDigitsOf(s[1..]);
      assert AllDigits(s) ==> AllDigits(s[1..]) by {
        forall i | 0 <= i < |s[1..]| ensures AllDigits(s) ==> IsDigit(s[1..][i]) {
          assert s[1..][i] == s[i + 1];
        }
      }
      assert !HasDigit(s) ==> !HasDigit(s[1..]) by {
        forall i | 0 <= i < |s[1..]| ensures !HasDigit(s) ==> !IsDigit(s[1..][i]) {
          assert s[1..][i] == s[i + 1];
        }
      }
      assert s == [s[0]] + s[1..];
    }
  }

  /** Removing a run of digits takes away digits only: the other characters are all kept, in order. */
  lemma {:induction false} RemoveAllNonDigits(x: string, p: string)
    requires IsDigits(p)
    ensures NonDigits(RemoveAll(x, p)) == NonDigits(x)
    decreases |x|
  {
    if |x| >= |p| {
      if x[..|p|] == p {
        RemoveAllNonDigits(x[|p|..], p);
        assert x == p + x[|p|..];
        NonDigitsAppend(p, x[|p|..]);
        NonDigitsOf(p);
      } else {
        RemoveAllNonDigits(x[1..], p);
        var r := RemoveAll(x, p);
        assert r[0] == x[0] && r[1..] == RemoveAll(x[1..], p);
      }
    }
  }

  /** The index where the first digit of s stands. */
  function FirstDigit(s: string): (i: nat)
    requires HasDigit(s)
    ensures i < |s| && IsDigit(s[i])
    ensures forall j :: 0 <= j < i ==> !IsDigit(s[j])
  {
    if IsDigit(s[0]) then 0
    else
      assert HasDigit(s[1..]) by {
        var j :| 0 <= j < |s| && IsDigit(s[j]);
        assert s[1..][j - 1] == s[j];
      }
      1 + FirstDigit(s[1..])
  }

  /** The number of digits at the start of s. */
  function DigitPrefix(s: string): (n: nat)
    ensures n <= |s| && AllDigits(s[..n])
    ensures n < |s| ==> !IsDigit(s[n])
  {
    if s == [] || !IsDigit(s[0]) then 0
    else
      var n := DigitPrefix(s[1..]);
      assert s[..n + 1] == [s[0]] + s[1..][..n];
      n + 1
  }

  /** `re.search(r'\d+', s).group()`: the leftmost maximal run of digits. */
  function FirstDigitRun(s: string): (run: string)
    requires HasDigit(s)
    ensures IsDigits(run)
    ensures Contains(s, run)
    ensures exists i :: OccursAt(s, run, i) && (forall j :: 0 <= j < i ==> !IsDigit(s[j]))
                        && (i + |run| == |s| || !IsDigit(s[i + |run|]))
  {
    var i := FirstDigit(s);
    var n := DigitPrefix(s[i..]);
    assert s[i..][..n] == s[i..i + n];
    assert OccursAt(s, s[i..i + n], i);
    assert i + n < |s| ==> s[i + n] == s[i..][n];
    s[i..i + n]
  }

  function DigitValue(c: char): nat { if IsDigit(c) then c as int - '0' as int else 0 }

  function DigitChar(d: nat): (c: char)
    requires d < 10
    ensures IsDigit(c) && DigitValue(c) == d
  {
    ('0' as int + d) as char
  }

  /** `int(s)` for a string of digits. */
  function DigitsValue(s: string): nat
  {
    if s == [] then 0 else DigitsValue(s[..|s| - 1]) * 10 + DigitValue(s[|s| - 1])
  }

  /** `str(n)` for a natural number: decimal digits, no leading zero. */
  function NatText(n: nat): (s: string)
    ensures IsDigits(s)
    ensures |s| > 1 ==> s[0] != '0'
    decreases n
  {
    if n < 10 then [DigitChar(n)] else NatText(n / 10) + [DigitChar(n % 10)]
  }

  /** `str(i)` for any integer. */
  function IntText(i: int): string
  {
    if i < 0 then "-" + NatText(-i) else NatText(i)
  }

  lemma {:induction false} NatTextValue(n: nat)
    ensures DigitsValue(NatText(n)) == n
    decreases n
  {
    if n >= 10 {
      NatTextValue(n / 10);
      var s := NatText(n);
      assert s[..|s| - 1] == NatText(n / 10);
    }
  }

  lemma NatTextInjective(m: nat, n: nat)
    requires NatText(m) == NatText(n)
    ensures m == n
  {
    NatTextValue(m);
    NatTextValue(n);
  }

  /** `str(int(s))` gives back s for a digit string with no leading zero. */
  lemma {:induction false} DigitsCanonical(s: string)
    requires IsDigits(s) && (|s| > 1 ==> s[0] != '0')
    ensures NatText(DigitsValue(s)) == s
    decreases |s|
  {
    var init := s[..|s| - 1];
    var last := s[|s| - 1];
    if |s| == 1 {
      assert DigitsValue(s) == DigitValue(last);
    } else {
      assert IsDigits(init) && init[0] == s[0];
      DigitsCanonical(init);
      DigitsPositive(init);
      var v := DigitsValue(s);
      assert v == DigitsValue(init) * 10 + DigitValue(last);
      assert v / 10 == DigitsValue(init) && v % 10 == DigitValue(last);
      assert s == init + [last];
    }
  }

  lemma {:induction false} DigitsPositive(s: string)
    requires IsDigits(s) && s[0] != '0'
    ensures DigitsValue(s) >= 1
    decreases |s|
  {
    if |s| > 1 {
      DigitsPositive(s[..|s| - 1]);
    }
  }
}
