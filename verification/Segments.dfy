/** Cutting a payload into segments of at most `n` bytes. */
module Segments {
  import opened Wire

  /** The segments of a payload, front first; a payload that fits is its own only segment. */
  function Cut(p: seq<byte>, n: int): (cs: seq<seq<byte>>)
    requires n >= 1
    ensures cs != []
    decreases |p|
  {
    if |p| <= n then [p] else [p[..n]] + Cut(p[n..], n)
  }

  /** The segments tile the payload: nothing is lost, repeated or reordered. */
  lemma {:induction false} CutTiles(p: seq<byte>, n: int)
    requires n >= 1
    ensures Concat(Cut(p, n)) == p
    decreases |p|
  {
    if |p| <= n {
      assert Concat([p]) == p + Concat([]);
    } else {
      CutTiles(p[n..], n);
      assert Cut(p, n)[1..] == Cut(p[n..], n);
      assert p == p[..n] + p[n..];
    }
  }

  /** All segments but the last are full; with more than one segment none is empty. */
  lemma {:induction false} CutSizes(p: seq<byte>, n: int)
    requires n >= 1
    ensures var cs := Cut(p, n);
      && (forall i | 0 <= i < |cs| - 1 :: |cs[i]| == n)
      && |cs[|cs| - 1]| <= n
      && (|p| > 0 ==> |cs[|cs| - 1]| > 0)
    decreases |p|
  {
    if |p| > n {
      CutSizes(p[n..], n);
      var cs, tail := Cut(p, n), Cut(p[n..], n);
      forall i | 0 <= i < |cs| - 1 ensures |cs[i]| == n {
        if i > 0 { assert cs[i] == tail[i - 1]; }
      }
    }
  }

  /** There are as few segments as the size allows: `k` of them hold more than `k - 1` and no more
      than `k` times the segment size. */
  lemma {:induction false} CutCount(p: seq<byte>, n: int)
    requires n >= 1 && |p| > 0
    ensures var k := |Cut(p, n)|; (k - 1) * n < |p| <= k * n
    decreases |p|
  {
    if |p| > n {
      CutCount(p[n..], n);
      var k := |Cut(p[n..], n)|;
      assert |Cut(p, n)| == k + 1;
      assert (k - 1) * n + n == k * n && k * n + n == (k + 1) * n;
    }
  }

  /** Where the senders find segment `i`: their quotient and remainder index the same cutting. */
  lemma {:induction false} CutAt(p: seq<byte>, n: int, i: nat)
    requires n >= 1 && |p| > 0 && i < |Cut(p, n)|
    ensures 0 <= i * n <= |p|
    ensures Cut(p, n)[i] == if i * n + n < |p| then p[i * n..i * n + n] else p[i * n..]
    ensures i == |Cut(p, n)| - 1 <==> i * n + n >= |p|
    decreases |p|
  {
    if |p| > n && i > 0 {
      var rest, j := p[n..], (i - 1) * n;
      CutAt(rest, n, i - 1);
      assert i * n == j + n;
      assert Cut(p, n)[i] == Cut(rest, n)[i - 1];
      if j + n < |rest| { SliceTail(p, n, j, j + n); } else { SliceTail(p, n, j, |rest|); }
    }
  }

  lemma SliceTail(p: seq<byte>, n: nat, lo: nat, hi: nat)
    requires lo <= hi && n + hi <= |p|
    ensures p[n..][lo..hi] == p[n + lo..n + hi]
    ensures n + hi == |p| ==> p[n..][lo..] == p[n + lo..]
  {
  }
}
