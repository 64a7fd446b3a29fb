/** The sequential exclusive scan: the single-pass recurrence every other
    strategy is measured against. */
module SeqScan {
  import opened Prefix
  import opened Support

  /** Scan::process: after the length check, out[0] = def and
      out[k] = v_in[k-1] + out[k-1]; the result is the exclusive prefix sum. */
  method Process(def: int, vIn: seq<int>, vOut: array<int>) returns (r: Status)
    requires |vIn| == vOut.Length ==> vOut.Length >= 1
    modifies vOut
    ensures r == CheckArgs(|vIn|, vOut.Length)
    ensures r.Err? ==> vOut[..] == old(vOut[..])
    ensures r.Ok? ==> vOut[..] == ScanSpec(def, vIn)
  {
    var nIn, nOut := |vIn|, vOut.Length;
    r := CheckArgs(nIn, nOut);
    if r.Err? {
      return;
    }
    vOut[0] := def;
    for k := 1 to nOut
      invariant forall i :: 0 <= i < k ==> vOut[i] == def + Sum(vIn[..i])
    {
      vOut[k] := vIn[k - 1] + vOut[k - 1];
      assert vIn[..k][..k - 1] == vIn[..k - 1];
    }
  }

  /** The expected output the repository's tests give for the sequential scan. */
  lemma {:induction false} EightElementExample()
    ensures ScanSpec(0, [3, 1, 7, 0, 4, 1, 6, 3]) == [0, 3, 4, 11, 11, 15, 16, 22]
  {
    var v := [3, 1, 7, 0, 4, 1, 6, 3];
    var out := [0, 3, 4, 11, 11, 15, 16, 22];
    forall k | 1 <= k < |v|
      ensures out[k] == v[k - 1] + out[k - 1]
    {
    }
    RecurrenceDeterminesScan(0, v, out);
  }
}
