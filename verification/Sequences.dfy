/** Flattening, and subsequences given by strictly increasing positions. */
module Sequences {

  datatype Option<+T> = None | Some(value: T)

  function Min(a: int, b: int): int {
    if a < b then a else b
  }

  function Flatten<T>(xs: seq<seq<T>>): seq<T> {
    if xs == [] then [] else Flatten(xs[..|xs| - 1]) + xs[|xs| - 1]
  }

  lemma FlattenSnoc<T>(xs: seq<seq<T>>, x: seq<T>)
    ensures Flatten(xs + [x]) == Flatten(xs) + x
  {
    assert (xs + [x])[..|xs|] == xs;
  }

  lemma {:induction false} FlattenConcat<T>(xs: seq<seq<T>>, ys: seq<seq<T>>)
    ensures Flatten(xs + ys) == Flatten(xs) + Flatten(ys)
  {
    if ys == [] {
      assert xs + ys == xs;
    } else {
      var n := |ys| - 1;
      FlattenConcat(xs, ys[..n]);
      FlattenSnoc(xs + ys[..n], ys[n]);
      assert Flatten(ys) == Flatten(ys[..n]) + ys[n];
      assert xs + ys == xs + ys[..n] + [ys[n]];
      hide Flatten;
    }
  }

  /** The elements of a sit in b at the strictly increasing positions `at`. */
  ghost predicate SitsAt<T>(a: seq<T>, b: seq<T>, at: seq<nat>) {
    && |at| == |a|
    && (forall i :: 0 <= i < |at| ==> at[i] < |b| && b[at[i]] == a[i])
    && (forall i, j :: 0 <= i < j < |at| ==> at[i] < at[j])
  }

  ghost predicate Subsequence<T(!new)>(a: seq<T>, b: seq<T>) {
    exists at :: SitsAt(a, b, at)
  }

  lemma SubsequenceRefl<T(!new)>(a: seq<T>)
    ensures Subsequence(a, a)
  {
    assert SitsAt(a, a, seq(|a|, i => i));
  }

  lemma SubsequenceEmpty<T(!new)>(b: seq<T>)
    ensures Subsequence([], b)
  {
    assert SitsAt([], b, []);
  }

  lemma {:induction false} PlacesBetween(at: seq<nat>, bound: nat, i: nat)
    requires (forall j :: 0 <= j < |at| ==> at[j] < bound) && (forall j, k :: 0 <= j < k < |at| ==> at[j] < at[k])
    requires i < |at|
    ensures i <= at[i] <= bound - (|at| - i)
  {
    for j := 0 to i
      invariant forall k :: 0 <= k <= j ==> k <= at[k]
    {
      assert at[j] < at[j + 1];
    }
    var j := |at| - 1;
    while j > i
      invariant i <= j < |at| && at[j] <= bound - (|at| - j)
    {
      assert at[j - 1] < at[j];
      j := j - 1;
    }
  }

  /** A subsequence as long as the whole is the whole. */
  lemma SubsequenceWhole<T(!new)>(a: seq<T>, b: seq<T>)
    requires Subsequence(a, b) && |a| == |b|
    ensures a == b
  {
    var at :| SitsAt(a, b, at);
    forall i | 0 <= i < |a|
      ensures a[i] == b[i]
    {
      PlacesBetween(at, |b|, i);
    }
  }

  lemma SubsequenceConcat<T(!new)>(a: seq<T>, b: seq<T>, c: seq<T>, d: seq<T>)
    requires Subsequence(a, b) && Subsequence(c, d)
    ensures Subsequence(a + c, b + d)
  {
    var p :| SitsAt(a, b, p);
    var q :| SitsAt(c, d, q);
    assert SitsAt(a + c, b + d, p + seq(|q|, i requires 0 <= i < |q| => |b| + q[i]));
  }

  lemma SubsequenceTrans<T(!new)>(a: seq<T>, b: seq<T>, c: seq<T>)
    requires Subsequence(a, b) && Subsequence(b, c)
    ensures Subsequence(a, c)
  {
    var p :| SitsAt(a, b, p);
    var q :| SitsAt(b, c, q);
    assert SitsAt(a, c, seq(|p|, i requires 0 <= i < |p| => q[p[i]]));
  }

  lemma SubsequenceSnoc<T(!new)>(a: seq<T>, b: seq<T>, x: T)
    requires Subsequence(a, b)
    ensures Subsequence(a + [x], b + [x]) && Subsequence(a, b + [x])
  {
    SubsequenceRefl([x]);
    SubsequenceConcat(a, b, [x], [x]);
    SubsequenceEmpty([x]);
    SubsequenceConcat(a, b, [], [x]);
    assert a + [] == a;
  }

  /** The pieces fs back to back, the last one cut to its first k elements. */
  ghost predicate WholeThenCut<T>(wire: seq<T>, fs: seq<seq<T>>, k: nat) {
    if fs == [] then wire == []
    else k <= |fs[|fs| - 1]| && wire == Flatten(fs[..|fs| - 1]) + fs[|fs| - 1][..k]
  }

  lemma SuffixOfConcat<T>(a: seq<T>, b: seq<T>, c: seq<T>, t: seq<T>)
    requires a + b == c + t && |b| <= |t|
    ensures a == c + t[..|t| - |b|] && b == t[|t| - |b|..]
  {
    assert a == (a + b)[..|a|] && b == (a + b)[|a|..];
  }

  /** Sending x more elements of a tail that belongs to the last piece cuts that piece only. */
  lemma CutSomewhere<T>(wire: seq<T>, tail: seq<T>, fs: seq<seq<T>>, x: nat)
    requires wire + tail == Flatten(fs) && x <= |tail|
    requires tail != [] ==> (fs != [] && |tail| <= |fs[|fs| - 1]|)
    ensures exists k: nat :: WholeThenCut(wire + tail[..x], fs, k)
  {
    if fs == [] {
      assert wire + tail == [] && WholeThenCut(wire + tail[..x], fs, 0);
    } else {
      var front, last := Flatten(fs[..|fs| - 1]), fs[|fs| - 1];
      SuffixOfConcat(wire, tail, front, last);
      var k := |last| - |tail| + x;
      assert last[..k] == last[..|last| - |tail|] + tail[..x];
      assert wire + tail[..x] == front + last[..k];
      assert WholeThenCut(wire + tail[..x], fs, k);
    }
  }

  /** The last n elements. */
  function Newest<T>(s: seq<T>, n: nat): (r: seq<T>)
    ensures |r| == Min(|s|, n)
  {
    if |s| <= n then s else s[|s| - n..]
  }

  lemma NewestOfNewest<T>(a: seq<T>, b: seq<T>, n: nat)
    ensures Newest(Newest(a, n) + b, n) == Newest(a + b, n)
  {
    if |a| > n {
      assert a + b == a[..|a| - n] + (Newest(a, n) + b);
    }
  }

  lemma NewestTwice<T>(a: seq<T>, m: nat, n: nat)
    ensures Newest(Newest(a, m), n) == Newest(a, Min(m, n))
  {}
}
