/** The double-buffered tree scan: each depth reads the current buffer and
    writes the other, and the mode says which one is current. */
module DoubleBufferScan {
  import opened Prefix
  import opened Support
  import NaiveScan

  /** Scan::process of seq_naive_dbl. In mode A the copy v_out_tmp is current
      and v_out receives the depth; in mode B the roles are exchanged. v_out_tmp
      is copied back when the final mode is A. */
  method Process(def: int, vIn: seq<int>, vOut: array<int>) returns (r: Status)
    requires |vIn| == vOut.Length ==> vOut.Length >= 1
    modifies vOut
    ensures r == CheckArgs(|vIn|, vOut.Length)
    ensures r.Err? ==> vOut[..] == old(vOut[..])
    ensures r.Ok? ==> vOut[..] == ScanSpec(def, vIn)
  {
    var nIn, nOut := |vIn|, vOut.Length;
    var dEnd := CeilLog2(nOut);
    var mode: DoubleBufferMode;
    r := CheckArgs(nIn, nOut);
    if r.Err? {
      return;
    }
    NaiveScan.WriteLayout(def, vIn, vOut);
    var tmp := new int[nOut];
    var _ := Copy(vOut[..], tmp, 0, nOut);
    ghost var x := Layout(def, vIn);
    assert tmp[..] == vOut[..] == x;
    mode := Depths(x, tmp, vOut, dEnd);
    if mode == A {
      var _ := Copy(tmp[..], vOut, 0, nOut);
    }
    TreeComputesScan(def, vIn, dEnd);
  }

  /** The depth loop of Process: tmp is the buffer that is current in mode A,
      out the one that is current in mode B; both start as the layout x. */
  method Depths(ghost x: seq<int>, tmp: array<int>, out: array<int>, dEnd: nat) returns (mode: DoubleBufferMode)
    requires tmp != out && |x| > 0
    requires tmp[..] == x && out[..] == x
    modifies tmp, out
    ensures mode == ModeAfter(dEnd)
    ensures mode == A ==> tmp[..] == TreeAfter(x, dEnd)
    ensures mode == B ==> out[..] == TreeAfter(x, dEnd)
  {
    mode := DefaultMode;
    for d := 0 to dEnd
      invariant tmp.Length == out.Length == |x|
      invariant mode == ModeAfter(d)
      invariant tmp[0] == x[0] && out[0] == x[0]
      invariant mode == A ==> tmp[..] == TreeAfter(x, d)
      invariant mode == B ==> out[..] == TreeAfter(x, d)
    {
      var offset := Pow2(d);
      TreeKeepsHead(x, d + 1);
      if mode == A {
        DepthInto(tmp[..], out, offset);
      } else {
        DepthInto(out[..], tmp, offset);
      }
      mode := mode.GetAlternate();
    }
  }

  /** One depth from cur into next: next[k] = cur[k - offset] + cur[k] for
      k >= offset and next[k] = cur[k] for 1 <= k < offset; next[0] is not written. */
  method DepthInto(cur: seq<int>, next: array<int>, offset: nat)
    requires |cur| == next.Length
    modifies next
    ensures next.Length > 0 ==> next[0] == old(next[0])
    ensures forall k :: 1 <= k < |cur| ==> next[k] == StepAt(cur, offset, k)
    ensures next.Length > 0 && old(next[0]) == cur[0] && offset >= 1 ==> next[..] == Step(cur, offset)
  {
    var k := 1;
    while k < |cur|
      invariant forall i :: 1 <= i < k && i < |cur| ==> next[i] == StepAt(cur, offset, i)
      invariant next.Length > 0 ==> next[0] == old(next[0])
    {
      if k >= offset {
        var j := k - offset;
        next[k] := cur[j] + cur[k];
      } else {
        next[k] := cur[k];
      }
      k := k + 1;
    }
  }
}
