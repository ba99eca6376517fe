/** Subsequences: a list obtained from another by leaving elements out, keeping the order of the rest. */
module Subsequences {
  /** a is b with some elements left out, the rest in the same order. */
  predicate IsSubseq<T(==)>(a: seq<T>, b: seq<T>)
    decreases |b|
  {
    if a == [] then true
    else if b == [] then false
    else if a[0] == b[0] then IsSubseq(a[1..], b[1..])
    else IsSubseq(a, b[1..])
  }

  lemma {:induction false} SubseqRefl<T>(a: seq<T>)
    ensures IsSubseq(a, a)
    decreases |a|
  {
    if a != [] {
      SubseqRefl(a[1..]);
    }
  }

  /** A subsequence of the tail of b is a subsequence of b. */
  lemma {:induction false} SubseqCons<T>(a: seq<T>, b: seq<T>)
    requires b != [] && IsSubseq(a, b[1..])
    ensures IsSubseq(a, b)
    decreases |b|, 0
  {
    if a != [] && a[0] == b[0] {
      SubseqDropHead(a, b[1..]);
    }
  }

  lemma {:induction false} SubseqDropHead<T>(a: seq<T>, b: seq<T>)
    requires a != [] && IsSubseq(a, b)
    ensures IsSubseq(a[1..], b)
    decreases |b|, 1
  {
    assert b != [];
    if a[0] == b[0] {
      SubseqCons(a[1..], b);
    } else {
      SubseqDropHead(a, b[1..]);
      SubseqCons(a[1..], b);
    }
  }

  lemma {:induction false} SubseqTrans<T>(a: seq<T>, b: seq<T>, c: seq<T>)
    requires IsSubseq(a, b) && IsSubseq(b, c)
    ensures IsSubseq(a, c)
    decreases |c|
  {
    if a != [] {
      assert b != [] && c != [];
      if b[0] == c[0] {
        if a[0] == b[0] {
          SubseqTrans(a[1..], b[1..], c[1..]);
        } else {
          assert IsSubseq(a, b[1..]) && IsSubseq(b[1..], c[1..]);
          SubseqTrans(a, b[1..], c[1..]);
          assert a[0] != c[0];
        }
      } else {
        SubseqTrans(a, b, c[1..]);
        SubseqCons(a, c);
      }
    }
  }

  /** A subsequence of a suffix of b is a subsequence of b. */
  lemma {:induction false} SubseqDropPrefix<T>(a: seq<T>, b: seq<T>, k: nat)
    requires k <= |b| && IsSubseq(a, b[k..])
    ensures IsSubseq(a, b)
    decreases k
  {
    if k > 0 {
      assert b[1..][k - 1..] == b[k..];
      SubseqDropPrefix(a, b[1..], k - 1);
      SubseqCons(a, b);
    }
  }

  /** Leaving out one element keeps the others in their order. */
  lemma {:induction false} SubseqDelete<T>(b: seq<T>, i: nat)
    requires i < |b|
    ensures IsSubseq(b[..i] + b[i + 1..], b)
    decreases i
  {
    if i == 0 {
      assert b[..i] + b[i + 1..] == b[1..];
      SubseqRefl(b[1..]);
      SubseqCons(b[1..], b);
    } else {
      var a := b[..i] + b[i + 1..];
      var a' := b[1..][..i - 1] + b[1..][i..];
      SubseqDelete(b[1..], i - 1);
      assert a[0] == b[0] && a[1..] == a';
    }
  }
}
