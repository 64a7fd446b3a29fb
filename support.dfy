/** The support library shared by every strategy: argument checking, the
    double-buffer mode, buffer allocation and copying, clamping, rotation and
    the lane-mask helpers. */
module Support {
  import opened Prefix
  import opened Lanes

  /** What an error message reports; each variant carries the numbers its message prints. */
  datatype ErrorKind =
    | LengthMismatch(nIn: nat, nOut: nat)
    | ConcatSizes(nDst: nat, nA: nat, nB: nat)
    | CapacityExceeded(nBuf: nat, n: nat)
    | Unimplemented

  /** Result<(), String>. */
  datatype Status = Ok | Err(error: ErrorKind)

  datatype Option<T> = None | Some(value: T)

  /** IScan::check_args: the input and output must have the same length. */
  function CheckArgs(nIn: nat, nOut: nat): (r: Status)
    ensures r.Ok? <==> nIn == nOut
    ensures r.Err? ==> r.error == LengthMismatch(nIn, nOut)
  {
    if nIn != nOut then Err(LengthMismatch(nIn, nOut)) else Ok
  }

  /** Which of two buffers holds the current depth's data. */
  datatype DoubleBufferMode = A | B
  {
    function GetAlternate(): (m: DoubleBufferMode)
      ensures m != this
    {
      match this
      case A => B
      case B => A
    }
  }

  /** #[default] on the mode. */
  const DefaultMode: DoubleBufferMode := A

  /** get_alternate is an involution without a fixed point. */
  lemma AlternateInvolution(m: DoubleBufferMode)
    ensures m.GetAlternate().GetAlternate() == m
    ensures m.GetAlternate() != m
  {
  }

  /** The mode after `swap` (self = self.get_alternate()) has run d times on the default. */
  function ModeAfter(d: nat): DoubleBufferMode
  {
    if d == 0 then DefaultMode else ModeAfter(d - 1).GetAlternate()
  }

  /** After d swaps from the default the mode is A exactly when d is even. */
  lemma {:induction false} ModeAfterParity(d: nat)
    ensures ModeAfter(d) == A <==> d % 2 == 0
  {
    if d > 0 {
      ModeAfterParity(d - 1);
    }
  }

  /** alloc: n copies of def. */
  function Alloc<T>(n: nat, def: T): (r: seq<T>)
    ensures |r| == n
    ensures forall i :: 0 <= i < n ==> r[i] == def
  {
    seq(n, _ => def)
  }

  function Max(a: int, b: int): int
  {
    if a >= b then a else b
  }

  /** min(max(x, begin), end), as clamp writes it. */
  function ClampTo(x: int, begin: int, end: int): int
  {
    Min(Max(x, begin), end)
  }

  lemma ClampInRange(x: int, begin: int, end: int)
    requires begin <= end
    ensures begin <= ClampTo(x, begin, end) <= end
    ensures begin <= x <= end ==> ClampTo(x, begin, end) == x
  {
  }

  lemma ClampIdempotent(x: int, begin: int, end: int)
    ensures ClampTo(ClampTo(x, begin, end), begin, end) == ClampTo(x, begin, end)
  {
  }

  /** clamp: the first n elements of v_in, clamped, go to v_out; the rest of v_out stays. */
  method Clamp(n: nat, vIn: seq<int>, vOut: array<int>, begin: int, end: int) returns (r: Status)
    requires n <= |vIn| && n <= vOut.Length
    modifies vOut
    ensures r == Ok
    ensures forall i :: 0 <= i < n ==> vOut[i] == ClampTo(vIn[i], begin, end)
    ensures forall i :: n <= i < vOut.Length ==> vOut[i] == old(vOut[i])
  {
    for i := 0 to n
      invariant forall j :: 0 <= j < i ==> vOut[j] == ClampTo(vIn[j], begin, end)
      invariant forall j :: i <= j < vOut.Length ==> vOut[j] == old(vOut[j])
    {
      vOut[i] := Min(Max(vIn[i], begin), end);
    }
    r := Ok;
  }

  /** copy into the slice dst[lo..hi): copy_from_slice demands equal lengths. */
  method Copy(src: seq<int>, dst: array<int>, lo: nat, hi: nat) returns (r: Status)
    requires lo <= hi <= dst.Length && |src| == hi - lo
    modifies dst
    ensures r == Ok
    ensures dst[..] == old(dst[..lo]) + src + old(dst[hi..])
    ensures lo == 0 && hi == dst.Length ==> dst[..] == src
  {
    for i := lo to hi
      invariant forall k :: lo <= k < i ==> dst[k] == src[k - lo]
      invariant forall k :: 0 <= k < dst.Length && !(lo <= k < i) ==> dst[k] == old(dst[k])
    {
      dst[i] := src[i - lo];
    }
    assert dst[..] == old(dst[..lo]) + src + old(dst[hi..]);
    r := Ok;
  }

  /** The guard of concat as written: it refuses exactly when the destination is
      strictly larger than both sources together. */
  predicate ConcatRefuses(nA: nat, nB: nat, nDst: nat)
  {
    nA + nB < nDst
  }

  /** concat as written. A destination shorter than a + b makes the slicing panic,
      so callers must avoid it; a longer one is refused by the guard. */
  method Concat(a: seq<int>, b: seq<int>, dst: array<int>) returns (r: Status)
    requires |a| + |b| <= dst.Length
    modifies dst
    ensures r.Err? <==> ConcatRefuses(|a|, |b|, dst.Length)
    ensures r.Err? ==> r.error == ConcatSizes(dst.Length, |a|, |b|) && dst[..] == old(dst[..])
    ensures r.Ok? ==> dst[..] == a + b
  {
    var nA, nB, nDst := |a|, |b|, dst.Length;
    if nA + nB < nDst {
      return Err(ConcatSizes(nDst, nA, nB));
    }
    var _ := Copy(a, dst, 0, nA);
    var _ := Copy(b, dst, nA, nA + nB);
    r := Ok;
  }

  /** As written, concat completes only when the destination has exactly the
      length of the two sources: every destination the guard admits is exact. */
  lemma ConcatAcceptsOnlyExact(nA: nat, nB: nat, nDst: nat)
    requires nA + nB <= nDst
    ensures !ConcatRefuses(nA, nB, nDst) <==> nA + nB == nDst
  {
  }

  /** A concrete input that shows the inverted guard: sources of lengths 1 and 1
      and a destination of length 3, which the message calls acceptable, are refused. */
  lemma ConcatRefusesLargerDestination()
    ensures ConcatRefuses(1, 1, 3) && 3 >= 1 + 1
  {
  }

  /** concat with the guard its message describes: refuse a destination shorter
      than the two sources, otherwise fill its prefix with a then b. */
  method ConcatChecked(a: seq<int>, b: seq<int>, dst: array<int>) returns (r: Status)
    modifies dst
    ensures r.Err? <==> dst.Length < |a| + |b|
    ensures r.Err? ==> r.error == ConcatSizes(dst.Length, |a|, |b|) && dst[..] == old(dst[..])
    ensures r.Ok? ==> dst[..|a| + |b|] == a + b && dst[|a| + |b|..] == old(dst[|a| + |b|..])
  {
    var nA, nB, nDst := |a|, |b|, dst.Length;
    if nDst < nA + nB {
      return Err(ConcatSizes(nDst, nA, nB));
    }
    var _ := Copy(a, dst, 0, nA);
    var _ := Copy(b, dst, nA, nA + nB);
    r := Ok;
  }

  /** new_mask: the first min(|v|, width) flags of v, every later lane off. */
  function NewMask(v: seq<bool>, width: nat): (m: seq<bool>)
    ensures |m| == width
    ensures forall i :: 0 <= i < width ==> m[i] == (i < |v| && v[i])
  {
    var n := Min(|v|, width);
    seq(width, i requires 0 <= i < width => if i < n then v[i] else false)
  }

  /** copy_simd: full chunks of `width` lanes, then one masked chunk for the
      remainder; together they copy exactly src[0..n) and touch nothing else. */
  method CopySimd(n: nat, def: int, src: seq<int>, dst: array<int>, width: nat) returns (r: Status)
    requires width >= 1
    requires n <= |src| && n <= dst.Length
    modifies dst
    ensures r == Ok
    ensures dst[..n] == src[..n]
    ensures forall i :: n <= i < dst.Length ==> dst[i] == old(dst[i])
  {
    var nChunks := n / width;
    var nCoalesced := nChunks * width;
    var nRem := n - nCoalesced;
    FloorChunks(n, width);
    CopyChunks(def, src, dst, nChunks, width);
    if nRem > 0 {
      CopyRemainder(def, src, dst, nCoalesced, n, width);
    }
    assert dst[..n] == src[..n];
    r := Ok;
  }

  /** The full-chunk loop of copy_simd: chunk c copies src[c*w .. c*w + w). */
  method CopyChunks(def: int, src: seq<int>, dst: array<int>, nChunks: nat, width: nat)
    requires nChunks * width <= |src| && nChunks * width <= dst.Length
    modifies dst
    ensures forall k :: 0 <= k < nChunks * width ==> dst[k] == src[k]
    ensures forall k :: nChunks * width <= k < dst.Length ==> dst[k] == old(dst[k])
  {
    var i, j := 0, width;
    for c := 0 to nChunks
      invariant i == c * width && j == i + width
      invariant forall k :: 0 <= k < i ==> dst[k] == src[k]
      invariant forall k :: i <= k < dst.Length ==> dst[k] == old(dst[k])
    {
      ChunkFits(c, nChunks, width);
      CopyChunk(def, src, dst, i, j);
      i, j := i + width, j + width;
    }
  }

  /** One full chunk of copy_simd: dst[i..j) := src[i..j). */
  method CopyChunk(def: int, src: seq<int>, dst: array<int>, i: nat, j: nat)
    requires i <= j <= |src| && j <= dst.Length
    modifies dst
    ensures forall k :: i <= k < j ==> dst[k] == src[k]
    ensures forall k :: 0 <= k < dst.Length && !(i <= k < j) ==> dst[k] == old(dst[k])
  {
    var lanes := LoadOr(src[i..j], def, j - i);
    StoreSelect(dst, i, j, lanes, AllOn(j - i));
  }

  /** The masked last chunk of copy_simd: the n - lo < width remaining elements. */
  method CopyRemainder(def: int, src: seq<int>, dst: array<int>, lo: nat, n: nat, width: nat)
    requires lo <= n <= |src| && n <= dst.Length && n - lo <= width
    modifies dst
    ensures forall k :: lo <= k < n ==> dst[k] == src[k]
    ensures forall k :: 0 <= k < dst.Length && !(lo <= k < n) ==> dst[k] == old(dst[k])
  {
    var lanes := LoadOr(src[lo..n], def, width);
    StoreSelect(dst, lo, n, lanes, NewMask(seq(n - lo, _ => true), width));
  }

  /** n / w full chunks of width w fit in n and leave fewer than w elements. */
  lemma FloorChunks(n: nat, w: nat)
    requires w >= 1
    ensures (n / w) * w <= n < (n / w) * w + w
  {
    assert n == (n / w) * w + n % w;
  }

  /** Chunk c of nChunks ends inside the first nChunks * w elements. */
  lemma ChunkFits(c: nat, nChunks: nat, w: nat)
    requires c < nChunks
    ensures c * w + w <= nChunks * w
    ensures (c + 1) * w == c * w + w
  {
    assert nChunks * w == (c + 1) * w + (nChunks - c - 1) * w;
  }

  /** rotate_right: dst[0] = src[n] and dst[1..n) = src[0..n-1). */
  method RotateRight(n: nat, src: seq<int>, dst: array<int>) returns (r: Status)
    requires 1 <= n < |src| && n <= dst.Length
    modifies dst
    ensures r == Ok
    ensures dst[0] == src[n]
    ensures forall i :: 1 <= i < n ==> dst[i] == src[i - 1]
    ensures forall i :: n <= i < dst.Length ==> dst[i] == old(dst[i])
  {
    dst[0] := src[n];
    var _ := Copy(src[..n - 1], dst, 1, n);
    r := Ok;
  }

  /** rotate_right_simd, stated by the part of its result the SIMD scan relies
      on: positions 1..n hold src shifted right by one. The lane phases are
      replaced by the scalar rotation they are meant to perform. */
  method RotateRightSimd(n: nat, def: int, src: seq<int>, dst: array<int>) returns (r: Status)
    requires 1 <= n <= |src| && n <= dst.Length
    modifies dst
    ensures r == Ok
    ensures forall i :: 1 <= i < n ==> dst[i] == src[i - 1]
    ensures forall i :: n <= i < dst.Length ==> dst[i] == old(dst[i])
  {
    dst[0] := src[n - 1];
    var _ := Copy(src[..n - 1], dst, 1, n);
    r := Ok;
  }

  /** swizzle: lane i takes src[indices[i]] when that index is below the lane
      width, else the default. */
  method Swizzle(def: int, src: seq<int>, indices: seq<nat>, width: nat) returns (res: seq<int>)
    requires |indices| >= width
    requires forall i :: 0 <= i < width && indices[i] < width ==> indices[i] < |src|
    ensures |res| == width
    ensures forall i :: 0 <= i < width ==> res[i] == if indices[i] < width then src[indices[i]] else def
  {
    var out := new int[width](_ => def);
    for i := 0 to width
      invariant forall k :: 0 <= k < i ==> out[k] == if indices[k] < width then src[indices[k]] else def
    {
      var index := indices[i];
      out[i] := if index < width then src[index] else def;
    }
    res := out[..];
  }

  /** The u64 bit mask built by new_mask_pred, as the set of positions of its
      set bits (all below 64). */
  type Bitmask = set<nat>

  /** `(T::from(b) as u64) << i`: bit i alone when b holds, else no bit. */
  function ShiftedBit(b: bool, i: nat): (m: Bitmask)
    ensures forall k :: k in m <==> b && k == i
  {
    if b then {i} else {}
  }

  /** The fold of new_mask_pred over its first `count` elements: acc | (pred(v[i]) << i). */
  function PredBits<T>(v: seq<T>, pred: T -> bool, count: nat): Bitmask
    requires count <= |v| && count <= 64
  {
    if count == 0 then {}
    else PredBits(v, pred, count - 1) + ShiftedBit(pred(v[count - 1]), count - 1)
  }

  /** Bit i of the fold is set exactly when i < count and pred(v[i]). */
  lemma {:induction false} PredBitsAt<T>(v: seq<T>, pred: T -> bool, count: nat, i: nat)
    requires count <= |v| && count <= 64
    ensures i in PredBits(v, pred, count) <==> i < count && pred(v[i])
  {
    if count > 0 {
      PredBitsAt(v, pred, count - 1, i);
    }
  }

  /** Mask::from_bitmask: lane i is bit i. */
  function FromBitmask(m: Bitmask, width: nat): (r: seq<bool>)
    requires width <= 64
    ensures |r| == width
    ensures forall i :: 0 <= i < width ==> r[i] == (i in m)
  {
    seq(width, i requires 0 <= i < width => i in m)
  }

  /** new_mask_pred: lane i is on exactly when i < min(|v|, width) and pred(v[i]). */
  function NewMaskPred<T>(v: seq<T>, pred: T -> bool, width: nat): (m: seq<bool>)
    requires width <= 64
    ensures |m| == width
    ensures forall i :: 0 <= i < width ==> m[i] == (i < |v| && pred(v[i]))
  {
    var n := Min(|v|, width);
    var bits := PredBits(v, pred, n);
    assert forall i :: 0 <= i < width ==> (i in bits <==> i < |v| && pred(v[i])) by {
      forall i | 0 <= i < width
        ensures i in bits <==> i < |v| && pred(v[i])
      {
        PredBitsAt(v, pred, n, i);
      }
    }
    FromBitmask(bits, width)
  }
}
