/** The few portable-SIMD operations the scan kernels use, with a lane vector
    modelled as a sequence of `width` values and a mask as a sequence of flags. */
module Lanes {

  /** Simd::load_or: lane i reads slice[i] when the slice is long enough, else the default. */
  function LoadOr(slice: seq<int>, def: int, width: nat): (r: seq<int>)
    ensures |r| == width
  {
    seq(width, i requires 0 <= i < width => if i < |slice| then slice[i] else def)
  }

  /** Simd::gather_select: lane i reads src[idx[i]] when the lane is enabled and
      the index lies inside src (a negative isize index cast to usize is out of
      range), else the default. */
  function GatherSelect(src: seq<int>, mask: seq<bool>, idx: seq<int>, def: int): (r: seq<int>)
    requires |mask| == |idx|
    ensures |r| == |idx|
  {
    seq(|idx|, i requires 0 <= i < |idx| =>
      if mask[i] && 0 <= idx[i] < |src| then src[idx[i]] else def)
  }

  /** Lane-wise addition of two vectors. */
  function Add(a: seq<int>, b: seq<int>): (r: seq<int>)
    requires |a| == |b|
    ensures |r| == |a|
  {
    seq(|a|, i requires 0 <= i < |a| => a[i] + b[i])
  }

  /** Mask::splat(true). */
  function AllOn(width: nat): (m: seq<bool>)
    ensures |m| == width
  {
    seq(width, _ => true)
  }

  /** Simd::store_select into the slice dst[lo..hi): lane i is written to
      dst[lo + i] when it is enabled and falls inside the slice; nothing else changes. */
  method StoreSelect(dst: array<int>, lo: nat, hi: nat, lanes: seq<int>, mask: seq<bool>)
    requires lo <= hi <= dst.Length
    requires |lanes| == |mask|
    modifies dst
    ensures forall k :: lo <= k < hi && k - lo < |lanes| && mask[k - lo] ==> dst[k] == lanes[k - lo]
    ensures forall k :: 0 <= k < dst.Length && !(lo <= k < hi && k - lo < |lanes| && mask[k - lo]) ==>
              dst[k] == old(dst[k])
  {
    var i := 0;
    while i < |lanes| && lo + i < hi
      invariant 0 <= i <= |lanes| && lo + i <= hi
      invariant forall k :: lo <= k < lo + i && mask[k - lo] ==> dst[k] == lanes[k - lo]
      invariant forall k :: 0 <= k < dst.Length && !(lo <= k < lo + i && mask[k - lo]) ==>
                  dst[k] == old(dst[k])
    {
      if mask[i] {
        dst[lo + i] := lanes[i];
      }
      i := i + 1;
    }
  }
}
