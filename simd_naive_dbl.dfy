/** The SIMD double-buffered tree scan: each depth walks the buffer in chunks
    of `width` lanes and combines a masked load, a masked gather and two
    masked stores. */
module SimdScan {
  import opened Prefix
  import opened Lanes
  import opened Support

  /** The four lane masks of the chunk that starts at kk. */
  datatype ChunkMasks = ChunkMasks(enK: seq<bool>, disK: seq<bool>, enJ: seq<bool>, enKJ: seq<bool>)

  /** The signed indices j = k - offset of the chunk's lanes (simd_j). */
  function JIndices(kk: nat, offset: nat, width: nat): (j: seq<int>)
    ensures |j| == width
    ensures forall i :: 0 <= i < width ==> j[i] + offset == kk + i
  {
    seq(width, i requires 0 <= i < width => kk + i - offset)
  }

  /** mask_en_k (k >= offset), mask_dis_k (its negation), mask_en_j (j < n,
      signed) and mask_en_kj (both). A lane is kept exactly when k < offset,
      added exactly when it is enabled for k and j, the two never overlap, every
      lane inside the buffer is one of them, and an added lane gathers from
      inside the buffer. */
  function Masks(kk: nat, offset: nat, n: nat, width: nat): (m: ChunkMasks)
    ensures |m.enK| == |m.disK| == |m.enJ| == |m.enKJ| == width
    ensures forall i :: 0 <= i < width ==> (m.disK[i] <==> kk + i < offset)
    ensures forall i :: 0 <= i < width ==> !(m.disK[i] && m.enKJ[i])
    ensures forall i :: 0 <= i < width && kk + i < n ==> m.disK[i] || m.enKJ[i]
    ensures forall i :: 0 <= i < width && m.enKJ[i] ==> 0 <= kk + i - offset < n
  {
    var j := JIndices(kk, offset, width);
    var enK := seq(width, i requires 0 <= i < width => kk + i >= offset);
    var disK := seq(width, i requires 0 <= i < width => !enK[i]);
    var enJ := seq(width, i requires 0 <= i < width => j[i] < n);
    var enKJ := seq(width, i requires 0 <= i < width => enK[i] && enJ[i]);
    ChunkMasks(enK, disK, enJ, enKJ)
  }

  /** One chunk of one depth: the lanes of [kk, min(n, kk + width)) of next
      receive the scalar step of cur; nothing else in next changes. */
  method SimdChunk(cur: seq<int>, next: array<int>, kk: nat, offset: nat, width: nat, def: int)
    requires |cur| == next.Length && kk <= |cur|
    modifies next
    ensures forall k :: kk <= k < Min(|cur|, kk + width) ==> next[k] == StepAt(cur, offset, k)
    ensures forall k :: 0 <= k < next.Length && !(kk <= k < Min(|cur|, kk + width)) ==>
              next[k] == old(next[k])
  {
    var n := |cur|;
    var kkEndClamp := Min(n, kk + width);
    var m := Masks(kk, offset, n, width);
    var ldK := LoadOr(cur[kk..kkEndClamp], def, width);
    var ldJ := GatherSelect(cur, m.enKJ, JIndices(kk, offset, width), def);
    var addKJ := Add(ldK, ldJ);
    StoreSelect(next, kk, kkEndClamp, ldK, m.disK);
    StoreSelect(next, kk, kkEndClamp, addKJ, m.enKJ);
  }

  /** One depth over all DivCeil(n, width) chunks: next becomes the scalar
      double-buffered step of cur. */
  method SimdDepth(cur: seq<int>, next: array<int>, offset: nat, width: nat, nChunks: nat, def: int)
    requires |cur| == next.Length && width >= 1
    requires nChunks == DivCeil(|cur|, width)
    modifies next
    ensures next[..] == Step(cur, offset)
  {
    var n := |cur|;
    var kk, kkEnd := 0, width;
    for c := 0 to nChunks
      invariant kk == c * width && kkEnd == kk + width
      invariant forall k :: 0 <= k < Min(n, kk) ==> next[k] == StepAt(cur, offset, k)
    {
      ChunkStart(c, nChunks, n, width);
      SimdChunk(cur, next, kk, offset, width, def);
      kk, kkEnd := kk + width, kkEnd + width;
    }
    assert n <= kk;
  }

  /** Chunk c < DivCeil(n, w) starts inside the buffer; the next one starts w later. */
  lemma ChunkStart(c: nat, nChunks: nat, n: nat, w: nat)
    requires w >= 1 && c < nChunks && nChunks == DivCeil(n, w)
    ensures c * w < n
    ensures (c + 1) * w == c * w + w
  {
    var rest: nat := nChunks - 1 - c;
    Distribute(c, rest, w);
    Distribute(c, 1, w);
    NatProduct(rest, w);
    assert c + rest == nChunks - 1;
  }

  /** Scan::process of simd_naive_dbl: both buffers start as the layout
      [def, v_in[0..n-1)], each depth runs SimdDepth from the current buffer
      into the other and swaps the mode, and the buffer the final mode names is
      copied out. */
  method Process(def: int, vIn: seq<int>, vOut: array<int>, width: nat) returns (r: Status)
    requires width >= 1
    requires |vIn| == vOut.Length ==> vOut.Length >= 1
    modifies vOut
    ensures r == CheckArgs(|vIn|, vOut.Length)
    ensures r.Err? ==> vOut[..] == old(vOut[..])
    ensures r.Ok? ==> vOut[..] == ScanSpec(def, vIn)
  {
    var nIn, nOut := |vIn|, vOut.Length;
    var mode: DoubleBufferMode;
    r := CheckArgs(nIn, nOut);
    if r.Err? {
      return;
    }
    var bufA := new int[nOut](_ => def);
    var bufB := new int[nOut](_ => def);
    var _ := RotateRightSimd(nOut, def, vIn, bufA);
    bufA[0] := def;
    var _ := CopySimd(nOut, def, bufA[..], bufB, width);
    var nChunks := DivCeil(nOut, width);
    var dEnd := CeilLog2(nOut);
    ghost var x := Layout(def, vIn);
    assert bufA[..] == x;
    assert bufB[..] == bufB[..nOut];
    mode := Depths(x, bufA, bufB, width, nChunks, dEnd, def);
    var _ := CopySimd(nOut, def, if mode == A then bufA[..] else bufB[..], vOut, width);
    assert vOut[..] == vOut[..nOut];
    TreeComputesScan(def, vIn, dEnd);
  }

  /** The depth loop of Process: bufA is current in mode A, bufB in mode B. */
  method Depths(ghost x: seq<int>, bufA: array<int>, bufB: array<int>, width: nat, nChunks: nat, dEnd: nat, def: int)
    returns (mode: DoubleBufferMode)
    requires bufA != bufB && bufA.Length == bufB.Length == |x| && width >= 1
    requires nChunks == DivCeil(|x|, width)
    requires bufA[..] == x
    modifies bufA, bufB
    ensures mode == ModeAfter(dEnd)
    ensures mode == A ==> bufA[..] == TreeAfter(x, dEnd)
    ensures mode == B ==> bufB[..] == TreeAfter(x, dEnd)
  {
    mode := DefaultMode;
    for d := 0 to dEnd
      invariant mode == ModeAfter(d)
      invariant mode == A ==> bufA[..] == TreeAfter(x, d)
      invariant mode == B ==> bufB[..] == TreeAfter(x, d)
    {
      var offset := Pow2(d);
      if mode == A {
        SimdDepth(bufA[..], bufB, offset, width, nChunks, def);
      } else {
        SimdDepth(bufB[..], bufA, offset, width, nChunks, def);
      }
      mode := mode.GetAlternate();
    }
  }
}
