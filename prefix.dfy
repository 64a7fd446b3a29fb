/** The exclusive prefix sum that every scan strategy computes, and the
    offset-doubling (Hillis-Steele) recurrence the tree strategies use to get it. */
module Prefix {

  /** Sum of a sequence, peeled from the back (the shape of the sequential recurrence). */
  function Sum(s: seq<int>): int
    decreases |s|
  {
    if |s| == 0 then 0 else Sum(s[..|s| - 1]) + s[|s| - 1]
  }

  lemma {:induction false} SumConcat(a: seq<int>, b: seq<int>)
    ensures Sum(a + b) == Sum(a) + Sum(b)
    decreases |b|
  {
    if |b| == 0 {
      assert a + b == a;
    } else {
      assert (a + b)[..|a + b| - 1] == a + b[..|b| - 1];
      SumConcat(a, b[..|b| - 1]);
    }
  }

  /** The oracle: out[k] = def + v[0] + ... + v[k-1]. */
  function ScanSpec(def: int, v: seq<int>): (r: seq<int>)
    ensures |r| == |v|
  {
    seq(|v|, k requires 0 <= k < |v| => def + Sum(v[..k]))
  }

  /** The sequential recurrence holds of the oracle: out[0] = def and
      out[k] = v[k-1] + out[k-1]. */
  lemma ScanRecurrence(def: int, v: seq<int>)
    ensures |v| > 0 ==> ScanSpec(def, v)[0] == def
    ensures forall k :: 1 <= k < |v| ==> ScanSpec(def, v)[k] == v[k - 1] + ScanSpec(def, v)[k - 1]
  {
    forall k | 1 <= k < |v|
      ensures ScanSpec(def, v)[k] == v[k - 1] + ScanSpec(def, v)[k - 1]
    {
      assert v[..k][..k - 1] == v[..k - 1];
    }
  }

  /** The oracle is determined by the recurrence: any sequence that satisfies it is the oracle. */
  lemma {:induction false} RecurrenceDeterminesScan(def: int, v: seq<int>, out: seq<int>)
    requires |out| == |v| > 0
    requires out[0] == def
    requires forall k :: 1 <= k < |v| ==> out[k] == v[k - 1] + out[k - 1]
    ensures out == ScanSpec(def, v)
  {
    var spec := ScanSpec(def, v);
    ScanRecurrence(def, v);
    var i := 0;
    while i < |v|
      invariant 0 <= i <= |v|
      invariant forall j :: 0 <= j < i ==> out[j] == spec[j]
    {
      i := i + 1;
    }
  }

  /** The last input element never contributes to the output. */
  lemma ScanIgnoresLast(def: int, v: seq<int>, y: int)
    requires |v| > 0
    ensures ScanSpec(def, v[..|v| - 1] + [y]) == ScanSpec(def, v)
  {
    var w := v[..|v| - 1] + [y];
    forall k | 0 <= k < |v|
      ensures ScanSpec(def, w)[k] == ScanSpec(def, v)[k]
    {
      assert w[..k] == v[..k];
    }
  }

  /** The layout every tree strategy starts from: [def, v[0], ..., v[n-2]]. */
  function Layout(def: int, v: seq<int>): (x: seq<int>)
    requires |v| > 0
    ensures |x| == |v| && x[0] == def
    ensures forall k :: 1 <= k < |v| ==> x[k] == v[k - 1]
  {
    [def] + v[..|v| - 1]
  }

  function Pow2(d: nat): (p: nat)
    ensures p >= 1
  {
    if d == 0 then 1 else 2 * Pow2(d - 1)
  }

  /** The number of tree depths: the least d with 2^d >= n (the source's
      ceil(log2 n), computed without floating point). */
  function CeilLog2(n: nat): (d: nat)
    ensures Pow2(d) >= n
    ensures d > 0 ==> Pow2(d - 1) < n
    decreases n
  {
    if n <= 1 then 0 else 1 + CeilLog2((n + 1) / 2)
  }

  /** One tree depth at a given offset: position k adds position k - offset when it exists. */
  function StepAt(cur: seq<int>, offset: nat, k: nat): int
    requires k < |cur|
  {
    if k >= offset then cur[k - offset] + cur[k] else cur[k]
  }

  function Step(cur: seq<int>, offset: nat): (next: seq<int>)
    ensures |next| == |cur|
  {
    seq(|cur|, k requires 0 <= k < |cur| => StepAt(cur, offset, k))
  }

  /** The buffer after d depths (offsets 1, 2, ..., 2^(d-1)) applied to the layout x. */
  function TreeAfter(x: seq<int>, d: nat): (r: seq<int>)
    ensures |r| == |x|
  {
    if d == 0 then x else Step(TreeAfter(x, d - 1), Pow2(d - 1))
  }

  /** First index of the window of width w that ends at k. */
  function WindowStart(k: nat, w: nat): nat
  {
    if k + 1 >= w then k + 1 - w else 0
  }

  /** After d depths, position k holds the sum of the (at most) 2^d layout
      elements that end at k: x[max(0, k - 2^d + 1) ..= k]. */
  lemma {:induction false} TreeWindow(x: seq<int>, d: nat, k: nat)
    requires k < |x|
    ensures TreeAfter(x, d)[k] == Sum(x[WindowStart(k, Pow2(d))..k + 1])
    decreases d
  {
    if d == 0 {
      assert x[k..k + 1] == [] + [x[k]];
      SumConcat([], [x[k]]);
    } else {
      var off := Pow2(d - 1);
      var prev := TreeAfter(x, d - 1);
      forall i | 0 <= i < |x|
        ensures prev[i] == Sum(x[WindowStart(i, off)..i + 1])
      {
        TreeWindow(x, d - 1, i);
      }
      WindowStep(x, prev, off, k);
      assert Pow2(d) == 2 * off;
    }
  }

  /** The inductive step of TreeWindow: one more depth doubles the window. */
  lemma WindowStep(x: seq<int>, prev: seq<int>, off: nat, k: nat)
    requires |prev| == |x| && k < |x| && off >= 1
    requires forall i :: 0 <= i < |x| ==> prev[i] == Sum(x[WindowStart(i, off)..i + 1])
    ensures StepAt(prev, off, k) == Sum(x[WindowStart(k, 2 * off)..k + 1])
  {
    if k >= off {
      var lo := WindowStart(k, 2 * off);
      var mid := k - off + 1;
      var left := x[lo..mid];
      var right := x[mid..k + 1];
      assert WindowStart(k - off, off) == lo;
      assert WindowStart(k, off) == mid;
      assert prev[k - off] == Sum(left);
      assert prev[k] == Sum(right);
      assert x[lo..k + 1] == left + right;
      SumConcat(left, right);
    } else {
      assert WindowStart(k, off) == 0 == WindowStart(k, 2 * off);
    }
  }

  /** Once 2^d >= n, the tree from the initial layout is the exclusive scan. */
  lemma TreeComputesScan(def: int, v: seq<int>, d: nat)
    requires |v| > 0 && Pow2(d) >= |v|
    ensures TreeAfter(Layout(def, v), d) == ScanSpec(def, v)
  {
    var x := Layout(def, v);
    forall k | 0 <= k < |v|
      ensures TreeAfter(x, d)[k] == ScanSpec(def, v)[k]
    {
      TreeWindow(x, d, k);
      assert x[..k + 1] == [def] + v[..k];
      SumConcat([def], v[..k]);
      assert [def] == [] + [def];
    }
  }

  /** Depth 0 of the tree never changes position 0. */
  lemma {:induction false} TreeKeepsHead(x: seq<int>, d: nat)
    requires |x| > 0
    ensures TreeAfter(x, d)[0] == x[0]
  {
    if d > 0 {
      TreeKeepsHead(x, d - 1);
    }
  }

  function Min(a: int, b: int): int
  {
    if a <= b then a else b
  }

  /** usize::div_ceil. */
  function DivCeil(n: nat, w: nat): (c: nat)
    requires w >= 1
    ensures c * w >= n
    ensures c > 0 ==> (c - 1) * w < n
  {
    if n == 0 then 0 else (n - 1) / w + 1
  }

  lemma Distribute(a: nat, b: nat, w: nat)
    ensures (a + b) * w == a * w + b * w
  {
  }

  lemma NatProduct(a: nat, w: nat)
    ensures a * w >= 0
  {
  }

  /** Index k of a buffer lies in chunk k / w, which starts at (k / w) * w. */
  lemma ChunkOfIndex(k: nat, w: nat)
    requires w >= 1
    ensures (k / w) * w <= k < (k / w) * w + w
  {
    assert k == (k / w) * w + k % w;
  }

  /** Every index below n lies in one of the DivCeil(n, w) chunks. */
  lemma IndexInChunks(k: nat, n: nat, w: nat)
    requires w >= 1 && k < n
    ensures k / w < DivCeil(n, w)
  {
    var c := DivCeil(n, w);
    ChunkOfIndex(k, w);
    if k / w >= c {
      var extra: nat := k / w - c;
      Distribute(c, extra, w);
      NatProduct(extra, w);
      assert false;
    }
  }
}
