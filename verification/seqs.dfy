/** Sequence helpers shared by the aggregator, the store and the renderers. */
module Seqs {

  /** Concatenation of a sequence of sequences, in order. */
  function Flatten<T>(ss: seq<seq<T>>): seq<T>
    decreases |ss|
  {
    if |ss| == 0 then [] else ss[0] + Flatten(ss[1..])
  }

  /** The elements of `s` from last to first (`iter().rev()`). */
  function Reverse<T>(s: seq<T>): (r: seq<T>)
    ensures |r| == |s|
    ensures forall i :: 0 <= i < |s| ==> r[i] == s[|s| - 1 - i]
    decreases |s|
  {
    if |s| == 0 then [] else [s[|s| - 1]] + Reverse(s[..|s| - 1])
  }

  /** Every member of `ss` has exactly `n` elements. */
  predicate AllOfLength<T>(ss: seq<seq<T>>, n: nat)
  {
    forall i :: 0 <= i < |ss| ==> |ss[i]| == n
  }

  lemma {:induction false} FlattenAppend<T>(a: seq<seq<T>>, b: seq<seq<T>>)
    ensures Flatten(a + b) == Flatten(a) + Flatten(b)
    decreases |a|
  {
    if |a| == 0 {
      assert a + b == b;
    } else {
      assert (a + b)[0] == a[0];
      assert (a + b)[1..] == a[1..] + b;
      FlattenAppend(a[1..], b);
    }
  }

  lemma FlattenOne<T>(s: seq<T>)
    ensures Flatten([s]) == s
  {
    assert [s][1..] == [];
  }

  /**
   * Splicing two consecutive splits: if x + p splits a + c and y + q splits
   * p + r, then x + y + q is a + c + r.
   */
  lemma Regroup<T>(x: seq<T>, p: seq<T>, y: seq<T>, q: seq<T>, a: seq<T>, c: seq<T>, r: seq<T>)
    requires x + p == a + c
    requires y + q == p + r
    ensures (x + y) + q == a + (c + r)
  {
    calc {
      (x + y) + q;
      x + (y + q);
      x + (p + r);
      (x + p) + r;
      (a + c) + r;
      a + (c + r);
    }
  }

  lemma AllOfLengthAppend<T>(a: seq<seq<T>>, b: seq<seq<T>>, n: nat)
    requires AllOfLength(a, n) && AllOfLength(b, n)
    ensures AllOfLength(a + b, n)
  {
    assert forall i :: 0 <= i < |a + b| ==> (a + b)[i] == if i < |a| then a[i] else b[i - |a|];
  }

  /** A slice of a suffix is the slice of the whole, shifted by the suffix's start. */
  lemma SliceOfSuffix<T>(s: seq<T>, k: nat, a: nat, b: nat)
    requires k <= |s| && a <= b <= |s| - k
    ensures s[k..][a..b] == s[a + k .. b + k]
  {
    assert forall j :: 0 <= j < b - a ==> s[k..][a..b][j] == s[a + k + j];
  }

  /** A slice inside a prefix is the same slice of the whole. */
  lemma SliceOfPrefix<T>(s: seq<T>, k: nat, a: nat, b: nat)
    requires a <= b <= k <= |s|
    ensures s[..k][a..b] == s[a..b]
  {
  }

  /**
   * Where block i starts when a sequence is cut into consecutive blocks of
   * `n` elements: i * n, counted block by block.
   */
  function BlockStart(i: nat, n: nat): (r: nat)
    ensures forall j :: 0 <= j <= i ==> BlockStart(j, n) <= r
    decreases i
  {
    if i == 0 then 0 else BlockStart(i - 1, n) + n
  }

  lemma {:induction false} BlockStartIsProduct(i: nat, n: nat)
    ensures BlockStart(i, n) == i * n
  {
    if i > 0 {
      BlockStartIsProduct(i - 1, n);
      assert (i - 1) * n + n == i * n;
    }
  }

  lemma {:induction false} BlockStartOne(i: nat)
    ensures BlockStart(i, 1) == i
  {
    if i > 0 {
      BlockStartOne(i - 1);
    }
  }

  /** Blocks of `n` elements laid end to end fill exactly up to the start of the next block. */
  lemma {:induction false} FlattenLength<T>(ss: seq<seq<T>>, n: nat)
    requires AllOfLength(ss, n)
    ensures |Flatten(ss)| == BlockStart(|ss|, n)
    decreases |ss|
  {
    if |ss| > 0 {
      FlattenLength(ss[1..], n);
    }
  }

  /** Block i of a concatenation of `n`-element blocks is the i-th block. */
  lemma {:induction false} FlattenBlocks<T>(ss: seq<seq<T>>, n: nat)
    requires AllOfLength(ss, n)
    ensures |Flatten(ss)| == BlockStart(|ss|, n)
    ensures forall i {:trigger ss[i]} :: 0 <= i < |ss| ==> ss[i] == Flatten(ss)[BlockStart(i, n) .. BlockStart(i + 1, n)]
    decreases |ss|
  {
    FlattenLength(ss, n);
    if |ss| > 0 {
      FlattenBlocks(ss[1..], n);
      forall i | 0 <= i < |ss|
        ensures ss[i] == Flatten(ss)[BlockStart(i, n) .. BlockStart(i + 1, n)]
      {
        if i > 0 {
          assert ss[i] == ss[1..][i - 1];
          assert Flatten(ss)[n..] == Flatten(ss[1..]);
          SliceOfSuffix(Flatten(ss), n, BlockStart(i - 1, n), BlockStart(i, n));
        }
      }
    }
  }
}
