/** The older single-crate layout: an eight-strategy selector whose
    dispatchers run the sequential strategies and the SIMD one. */
module CrateScan {
  import opened Prefix
  import opened Support
  import SeqScan
  import NaiveScan
  import DoubleBufferScan
  import SimdScan
  import Unimplemented

  datatype ImplKind =
    | Sequential
    | SequentialNaive
    | SequentialNaiveDoubleBuffer
    | SimdNaiveDoubleBuffer
    | ParallelCPUNaive
    | ParallelCPUNaiveDoubleBuffer
    | ParallelGPUNaive
    | ParallelGPUNaiveDoubleBuffer

  /** `self as i8`: the declaration index. */
  function ToI8(k: ImplKind): (id: int)
    ensures 0 <= id <= 7
  {
    match k
    case Sequential => 0
    case SequentialNaive => 1
    case SequentialNaiveDoubleBuffer => 2
    case SimdNaiveDoubleBuffer => 3
    case ParallelCPUNaive => 4
    case ParallelCPUNaiveDoubleBuffer => 5
    case ParallelGPUNaive => 6
    case ParallelGPUNaiveDoubleBuffer => 7
  }

  /** From<i8>: ids 0..=7 name a strategy; any other id makes the process exit
      with an error, modelled as None. */
  function FromI8(n: int): (k: Option<ImplKind>)
    ensures k.Some? <==> 0 <= n <= 7
    ensures k.Some? ==> ToI8(k.value) == n
  {
    match n
    case 0 => Some(Sequential)
    case 1 => Some(SequentialNaive)
    case 2 => Some(SequentialNaiveDoubleBuffer)
    case 3 => Some(SimdNaiveDoubleBuffer)
    case 4 => Some(ParallelCPUNaive)
    case 5 => Some(ParallelCPUNaiveDoubleBuffer)
    case 6 => Some(ParallelGPUNaive)
    case 7 => Some(ParallelGPUNaiveDoubleBuffer)
    case _ => None
  }

  /** Converting a strategy to its id and back gives the strategy. */
  lemma ToI8RoundTrip(k: ImplKind)
    ensures FromI8(ToI8(k)) == Some(k)
  {
  }

  predicate IsSimd(k: ImplKind)
  {
    k == SimdNaiveDoubleBuffer
  }

  /** Display. */
  function Name(k: ImplKind): string
  {
    match k
    case Sequential => "ScanSeq"
    case SequentialNaive => "ScanSeqNaive"
    case SequentialNaiveDoubleBuffer => "ScanSeqNaive2x"
    case SimdNaiveDoubleBuffer => "ScanSimdNaive2x"
    case ParallelCPUNaive => "ScanParCPUNaive"
    case ParallelCPUNaiveDoubleBuffer => "ScanParCPUNaive2x"
    case ParallelGPUNaive => "ScanParGPUNaive"
    case ParallelGPUNaiveDoubleBuffer => "ScanParGPUNaive2x"
  }

  /** Distinct strategies have distinct display names. */
  lemma NamesDistinct(a: ImplKind, b: ImplKind)
    ensures Name(a) == Name(b) ==> a == b
  {
  }

  /** Scan::seq: the sequential recurrence, the same loop as the standalone
      sequential strategy. */
  method Seq(identity: int, vIn: seq<int>, vOut: array<int>) returns (r: Status)
    requires |vIn| == vOut.Length ==> vOut.Length >= 1
    modifies vOut
    ensures r == CheckArgs(|vIn|, vOut.Length)
    ensures r.Err? ==> vOut[..] == old(vOut[..])
    ensures r.Ok? ==> vOut[..] == ScanSpec(identity, vIn)
  {
    r := SeqScan.Process(identity, vIn, vOut);
  }

  /** dispatch: the three sequential strategies run; the SIMD strategy and all
      four parallel ones go to the unimplemented strategy. */
  method Dispatch(k: ImplKind, identity: int, vIn: seq<int>, vOut: array<int>) returns (r: Status)
    requires |vIn| == vOut.Length ==> vOut.Length >= 1
    modifies vOut
    ensures ToI8(k) <= 2 ==> r == CheckArgs(|vIn|, vOut.Length)
    ensures ToI8(k) >= 3 ==> r == Err(ErrorKind.Unimplemented)
    ensures r.Err? ==> vOut[..] == old(vOut[..])
    ensures r.Ok? ==> vOut[..] == ScanSpec(identity, vIn)
  {
    match k {
      case Sequential =>
        r := Seq(identity, vIn, vOut);
      case SequentialNaive =>
        r := NaiveScan.SeqNaive(identity, vIn, vOut);
      case SequentialNaiveDoubleBuffer =>
        r := DoubleBufferScan.Process(identity, vIn, vOut);
      case _ =>
        r := Unimplemented.Process(identity, vIn, vOut);
    }
  }

  /** dispatch_simd: only the SIMD strategy runs; the rest are refused. */
  method DispatchSimd(k: ImplKind, identity: int, vIn: seq<int>, vOut: array<int>, width: nat) returns (r: Status)
    requires width >= 1
    requires |vIn| == vOut.Length ==> vOut.Length >= 1
    modifies vOut
    ensures IsSimd(k) ==> r == CheckArgs(|vIn|, vOut.Length)
    ensures !IsSimd(k) ==> r == Err(ErrorKind.Unimplemented)
    ensures r.Err? ==> vOut[..] == old(vOut[..])
    ensures r.Ok? ==> vOut[..] == ScanSpec(identity, vIn)
  {
    if k == SimdNaiveDoubleBuffer {
      r := SimdScan.Process(identity, vIn, vOut, width);
    } else {
      r := Unimplemented.Process(identity, vIn, vOut);
    }
  }
}
