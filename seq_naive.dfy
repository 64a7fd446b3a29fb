/** The in-place offset-doubling tree scan of the crate's `seq_naive`. */
module NaiveScan {
  import opened Prefix
  import opened Support

  /** Scan::seq_naive: lay out [def, v_in[0..n-1)] in v_out, then run
      CeilLog2(n) depths in place; the result is the exclusive prefix sum. */
  method SeqNaive(def: int, vIn: seq<int>, vOut: array<int>) returns (r: Status)
    requires |vIn| == vOut.Length ==> vOut.Length >= 1
    modifies vOut
    ensures r == CheckArgs(|vIn|, vOut.Length)
    ensures r.Err? ==> vOut[..] == old(vOut[..])
    ensures r.Ok? ==> vOut[..] == ScanSpec(def, vIn)
  {
    var nIn, nOut := |vIn|, vOut.Length;
    var dEnd := CeilLog2(nOut);
    r := CheckArgs(nIn, nOut);
    if r.Err? {
      return;
    }
    WriteLayout(def, vIn, vOut);
    ghost var x := Layout(def, vIn);
    for d := 0 to dEnd
      invariant vOut[..] == TreeAfter(x, d)
    {
      var offset := Pow2(d);
      DepthInPlace(vOut, offset);
    }
    TreeComputesScan(def, vIn, dEnd);
  }

  /** The start of every tree strategy: v_out[0] = def and v_out[1..n) = v_in[0..n-1). */
  method WriteLayout(def: int, vIn: seq<int>, vOut: array<int>)
    requires |vIn| == vOut.Length >= 1
    modifies vOut
    ensures vOut[..] == Layout(def, vIn)
  {
    var n := vOut.Length;
    var _ := Copy(vIn[..n - 1], vOut, 1, n);
    vOut[0] := def;
    forall k | 1 <= k < n
      ensures vOut[k] == vIn[k - 1]
    {
    }
  }

  /** One depth in place, k running from n-1 down to 1: because k - offset < k,
      every read of a[k - offset] still sees the previous depth's value, so the
      pass equals the simultaneous step. */
  method DepthInPlace(a: array<int>, offset: nat)
    requires offset >= 1
    modifies a
    ensures a[..] == Step(old(a[..]), offset)
  {
    ghost var prev := a[..];
    var k := a.Length;
    while k > 1
      invariant 0 <= k <= a.Length
      invariant forall i :: k <= i < a.Length ==> a[i] == StepAt(prev, offset, i)
      invariant forall i :: 0 <= i < k ==> a[i] == prev[i]
    {
      k := k - 1;
      if k >= offset {
        var j := k - offset;
        a[k] := a[j] + a[k];
      }
    }
  }
}
