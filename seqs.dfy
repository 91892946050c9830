/** Subsequences: what a filtering loop keeps, in the order it keeps it. */
module Subsequences {

  // Sequence identities, stated over any element type so that proofs about recursive
  // functions on sequences can rewrite with them instead of re-deriving them.

  lemma ConcatNil<T>(a: seq<T>)
    ensures a + [] == a && [] + a == a
  {
  }

  lemma ConcatAssoc<T>(a: seq<T>, b: seq<T>, c: seq<T>)
    ensures (a + b) + c == a + (b + c)
  {
  }

  /** Dropping the last element of `a + b` drops it from `b`. */
  lemma ConcatDropLast<T>(a: seq<T>, b: seq<T>)
    requires b != []
    ensures (a + b)[..|a + b| - 1] == a + b[..|b| - 1]
    ensures (a + b)[|a + b| - 1] == b[|b| - 1]
  {
  }

  /** A non-empty sequence is its front followed by its last element. */
  lemma SnocDropLast<T>(s: seq<T>)
    requires s != []
    ensures s[..|s| - 1] + [s[|s| - 1]] == s
  {
  }

  /** The prefix of length `j + 1` is the prefix of length `j` and the element at `j`. */
  lemma PrefixSnoc<T>(s: seq<T>, j: nat)
    requires j < |s|
    ensures s[..j + 1][..j] == s[..j]
    ensures s[..j + 1][j] == s[j]
    ensures s[..j + 1] == s[..j] + [s[j]]
  {
  }

  /** `a` is `b` with some elements left out, the rest kept in order. */
  predicate IsSubseq<T(==)>(a: seq<T>, b: seq<T>)
    decreases |b|
  {
    if a == [] then true
    else if b == [] then false
    else if a[|a| - 1] == b[|b| - 1] then IsSubseq(a[..|a| - 1], b[..|b| - 1])
    else IsSubseq(a, b[..|b| - 1])
  }

  lemma IsSubseqSnoc<T>(a: seq<T>, b: seq<T>, x: T, keep: bool)
    requires IsSubseq(a, b)
    ensures IsSubseq(a + (if keep then [x] else []), b + [x])
  {
    var b' := b + [x];
    assert b'[..|b'| - 1] == b;
    if keep {
      var a' := a + [x];
      assert a'[..|a'| - 1] == a;
    } else {
      assert a + [] == a;
      IsSubseqDropLast(a, b, x);
    }
  }

  /** A subsequence of `b` is one of any extension of `b`. */
  lemma {:induction false} IsSubseqDropLast<T>(a: seq<T>, b: seq<T>, x: T)
    requires IsSubseq(a, b)
    ensures IsSubseq(a, b + [x])
    decreases |b|, 1
  {
    var b' := b + [x];
    assert b'[..|b'| - 1] == b;
    if a != [] && a[|a| - 1] == x {
      IsSubseqPrefix(a, b);
    }
  }

  /** Dropping the last element of a subsequence leaves a subsequence. */
  lemma {:induction false} IsSubseqPrefix<T>(a: seq<T>, b: seq<T>)
    requires a != [] && IsSubseq(a, b)
    ensures IsSubseq(a[..|a| - 1], b)
    decreases |b|, 0
  {
    var a0, b0, y := a[..|a| - 1], b[..|b| - 1], b[|b| - 1];
    assert b0 + [y] == b;
    if a[|a| - 1] == y {
      IsSubseqDropLast(a0, b0, y);
    } else {
      IsSubseqPrefix(a, b0);
      IsSubseqDropLast(a0, b0, y);
    }
  }
}
