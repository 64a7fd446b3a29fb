/** The driver's strategy selector: an i8 id picks one of six strategies, and
    three dispatchers route a strategy to its implementation. */
module DriverScan {
  import opened Prefix
  import opened Support
  import SeqScan
  import NaiveScan
  import DoubleBufferScan
  import SimdScan
  import ParCpuScan
  import Unimplemented

  datatype ImplKind =
    | Sequential
    | SequentialNaive
    | SequentialNaiveDoubleBuffer
    | SimdNaiveDoubleBuffer
    | ParallelCPUNaiveDoubleBuffer
    | ParallelGPUNaiveDoubleBuffer

  /** `self as i8`: the declaration index. */
  function ToI8(k: ImplKind): (id: int)
    ensures 0 <= id <= 5
  {
    match k
    case Sequential => 0
    case SequentialNaive => 1
    case SequentialNaiveDoubleBuffer => 2
    case SimdNaiveDoubleBuffer => 3
    case ParallelCPUNaiveDoubleBuffer => 4
    case ParallelGPUNaiveDoubleBuffer => 5
  }

  /** From<i8>: ids 0..=5 name a strategy; any other id makes the process exit
      with an error, modelled as None. */
  function FromI8(n: int): (k: Option<ImplKind>)
    ensures k.Some? <==> 0 <= n <= 5
    ensures k.Some? ==> ToI8(k.value) == n
  {
    match n
    case 0 => Some(Sequential)
    case 1 => Some(SequentialNaive)
    case 2 => Some(SequentialNaiveDoubleBuffer)
    case 3 => Some(SimdNaiveDoubleBuffer)
    case 4 => Some(ParallelCPUNaiveDoubleBuffer)
    case 5 => Some(ParallelGPUNaiveDoubleBuffer)
    case _ => None
  }

  /** Converting a strategy to its id and back gives the strategy. */
  lemma ToI8RoundTrip(k: ImplKind)
    ensures FromI8(ToI8(k)) == Some(k)
  {
  }

  predicate IsParallel(k: ImplKind)
  {
    k == ParallelCPUNaiveDoubleBuffer || k == ParallelGPUNaiveDoubleBuffer
  }

  predicate IsSimd(k: ImplKind)
  {
    k == SimdNaiveDoubleBuffer
  }

  /** Of the six strategies, the two parallel ones and the SIMD one are the
      only ones the plain dispatcher cannot run; no strategy is both SIMD and parallel. */
  lemma FlagsPartition(k: ImplKind)
    ensures !(IsSimd(k) && IsParallel(k))
    ensures IsSimd(k) || IsParallel(k) <==> ToI8(k) >= 3
  {
  }

  /** Display. */
  function Name(k: ImplKind): string
  {
    match k
    case Sequential => "ScanSeq"
    case SequentialNaive => "ScanSeqNaive"
    case SequentialNaiveDoubleBuffer => "ScanSeqNaive2x"
    case SimdNaiveDoubleBuffer => "ScanSimdNaive2x"
    case ParallelCPUNaiveDoubleBuffer => "ScanParCPUNaive2x"
    case ParallelGPUNaiveDoubleBuffer => "ScanParGPUNaive2x"
  }

  /** The decimal digit of an id below ten. */
  function Digit(id: int): (s: string)
    requires 0 <= id <= 9
    ensures |s| == 1 && '0' <= s[0] <= '9'
  {
    [('0' as int + id) as char]
  }

  /** to_option_string: "*  <id> => <name>"; the id can be read back from the
      fourth character and the name from the ninth on. */
  function ToOptionString(k: ImplKind): (s: string)
    ensures |s| == 8 + |Name(k)|
    ensures s[3] as int - '0' as int == ToI8(k)
    ensures s[8..] == Name(k)
  {
    "*  " + Digit(ToI8(k)) + " => " + Name(k)
  }

  /** Distinct strategies have distinct display names. */
  lemma NamesDistinct(a: ImplKind, b: ImplKind)
    ensures Name(a) == Name(b) ==> a == b
  {
  }

  /** The option line of a strategy determines the strategy: its fourth
      character is the id. */
  lemma {:induction false} OptionStringsDistinct(a: ImplKind, b: ImplKind)
    ensures ToOptionString(a) == ToOptionString(b) ==> a == b
  {
    if ToOptionString(a) == ToOptionString(b) {
      assert ToI8(a) == ToI8(b);
      ToI8RoundTrip(a);
      ToI8RoundTrip(b);
    }
  }

  /** dispatch: the three sequential strategies run; every other one goes to
      the unimplemented strategy, which refuses and leaves v_out alone. Every
      successful run yields the exclusive scan. */
  method Dispatch(k: ImplKind, identity: int, vIn: seq<int>, vOut: array<int>) returns (r: Status)
    requires |vIn| == vOut.Length ==> vOut.Length >= 1
    modifies vOut
    ensures k == Sequential || k == SequentialNaive || k == SequentialNaiveDoubleBuffer ==>
              r == CheckArgs(|vIn|, vOut.Length)
    ensures IsSimd(k) || IsParallel(k) ==> r == Err(ErrorKind.Unimplemented)
    ensures r.Err? ==> vOut[..] == old(vOut[..])
    ensures r.Ok? ==> vOut[..] == ScanSpec(identity, vIn)
  {
    match k {
      case Sequential =>
        r := SeqScan.Process(identity, vIn, vOut);
      case SequentialNaive =>
        r := NaiveScan.SeqNaive(identity, vIn, vOut);
      case SequentialNaiveDoubleBuffer =>
        r := DoubleBufferScan.Process(identity, vIn, vOut);
      case _ =>
        r := Unimplemented.Process(identity, vIn, vOut);
    }
  }

  /** dispatch_simd: only the SIMD strategy runs; the rest are refused. */
  method DispatchSimd(k: ImplKind, identity: int, vIn: seq<int>, vOut: array<int>, width: nat) returns (r: Status)
    requires width >= 1
    requires |vIn| == vOut.Length ==> vOut.Length >= 1
    modifies vOut
    ensures IsSimd(k) ==> r == CheckArgs(|vIn|, vOut.Length)
    ensures !IsSimd(k) ==> r == Err(ErrorKind.Unimplemented)
    ensures r.Err? ==> vOut[..] == old(vOut[..])
    ensures r.Ok? ==> vOut[..] == ScanSpec(identity, vIn)
  {
    if k == SimdNaiveDoubleBuffer {
      r := SimdScan.Process(identity, vIn, vOut, width);
    } else {
      r := Unimplemented.Process(identity, vIn, vOut);
    }
  }

  /** dispatch_parallel: the CPU strategy as written runs (with each depth's
      chunks in the order the schedule gives), so its result is the scan from
      the scratch buffer's first element scratch0 rather than from identity;
      the non-parallel strategies are refused. */
  method DispatchParallel(k: ImplKind, scratch0: int, identity: int, vIn: seq<int>, vOut: array<int>,
                          elemSize: nat, width: nat, schedule: nat -> seq<nat>) returns (r: Status)
    requires k != ParallelGPUNaiveDoubleBuffer
    requires elemSize >= 1 && width >= 1
    requires |vIn| == vOut.Length ==> vOut.Length >= 1
    requires (k == ParallelCPUNaiveDoubleBuffer && |vIn| == vOut.Length &&
              vOut.Length <= ParCpuScan.CapacityAsWritten(elemSize)) ==> ParCpuScan.BuffersFit(vOut.Length, elemSize)
    requires forall d :: ParCpuScan.Covers(schedule(d), DivCeil(vOut.Length, width))
    modifies vOut
    ensures IsParallel(k) ==> r == ParCpuScan.ChecksAsWritten(|vIn|, vOut.Length, elemSize)
    ensures !IsParallel(k) ==> r == Err(ErrorKind.Unimplemented)
    ensures r.Err? ==> vOut[..] == old(vOut[..])
    ensures r.Ok? ==> vOut[..] == ScanSpec(scratch0, vIn)
  {
    if k == ParallelCPUNaiveDoubleBuffer {
      r := ParCpuScan.Process(scratch0, identity, vIn, vOut, elemSize, width, schedule);
    } else {
      r := Unimplemented.Process(identity, vIn, vOut);
    }
  }

  /** dispatch_parallel with the corrected CPU strategy: the result is the
      exclusive scan from identity, and every size whose buffers do not fit is
      refused. */
  method DispatchParallelCorrected(k: ImplKind, identity: int, vIn: seq<int>, vOut: array<int>, elemSize: nat,
                                   width: nat, schedule: nat -> seq<nat>) returns (r: Status)
    requires k != ParallelGPUNaiveDoubleBuffer
    requires elemSize >= 1 && width >= 1
    requires |vIn| == vOut.Length ==> vOut.Length >= 1
    requires forall d :: ParCpuScan.Covers(schedule(d), DivCeil(vOut.Length, width))
    modifies vOut
    ensures IsParallel(k) ==> r == ParCpuScan.Checks(|vIn|, vOut.Length, elemSize)
    ensures !IsParallel(k) ==> r == Err(ErrorKind.Unimplemented)
    ensures r.Err? ==> vOut[..] == old(vOut[..])
    ensures r.Ok? ==> vOut[..] == ScanSpec(identity, vIn)
  {
    if k == ParallelCPUNaiveDoubleBuffer {
      r := ParCpuScan.ProcessWithIdentity(identity, vIn, vOut, elemSize, width, schedule);
    } else {
      r := Unimplemented.Process(identity, vIn, vOut);
    }
  }
}
