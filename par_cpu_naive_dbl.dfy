/** The parallel CPU double-buffered tree scan, sequentialised: one worker per
    chunk of `width` elements, and a depth is every worker running its chunk
    once, in whatever order the threads happen to run. */
module ParCpuScan {
  import opened Prefix
  import opened Support

  const NUM_PAGES: nat := 10
  const PAGE_SIZE: nat := 4096
  /** Bytes in each of the two static scratch buffers. */
  const BUFFER_LENGTH: nat := NUM_PAGES * PAGE_SIZE

  /** get_buffers slices the first 2 * n * size bytes of each scratch buffer,
      which exists only when that many bytes fit. */
  predicate BuffersFit(n: nat, elemSize: nat)
  {
    2 * n * elemSize <= BUFFER_LENGTH
  }

  /** n_buf as written: BUFFER_LENGTH / size_of::<T>(). */
  function CapacityAsWritten(elemSize: nat): nat
    requires elemSize >= 1
  {
    BUFFER_LENGTH / elemSize
  }

  /** The capacity check as written lets through sizes whose buffers do not
      fit: 5120 elements of 8 bytes pass it, yet get_buffers slices 81920 bytes
      out of a 40960-byte buffer. */
  lemma CapacityAsWrittenAdmitsOverflow()
    ensures !(5120 > CapacityAsWritten(8)) && !BuffersFit(5120, 8)
  {
  }

  /** The capacity the slicing in get_buffers needs: BUFFER_LENGTH / (2 * size). */
  function Capacity(elemSize: nat): nat
    requires elemSize >= 1
  {
    CapacityAsWritten(2 * elemSize)
  }

  /** The corrected check refuses exactly the sizes whose buffers do not fit. */
  lemma {:induction false} CapacityExact(n: nat, elemSize: nat)
    requires elemSize >= 1
    ensures n <= Capacity(elemSize) <==> BuffersFit(n, elemSize)
  {
    var w := 2 * elemSize;
    var q := BUFFER_LENGTH / w;
    assert BUFFER_LENGTH == q * w + BUFFER_LENGTH % w;
    assert 2 * n * elemSize == n * w;
    if n <= q {
      var extra: nat := q - n;
      Distribute(n, extra, w);
      NatProduct(extra, w);
    } else {
      var extra: nat := n - q - 1;
      Distribute(q + 1, extra, w);
      Distribute(q, 1, w);
      NatProduct(extra, w);
    }
  }

  /** The per-thread parameters of one chunk of one depth. */
  datatype WorkGroup = WorkGroup(id: nat, n: nat, offset: nat, mode: DoubleBufferMode)
  {
    /** First index of the chunk. */
    function Begin(width: nat): nat
    {
      id * width
    }

    /** One past the last index of the chunk, clamped to n. */
    function End(width: nat): nat
    {
      Min(n, id * width + width)
    }

    /** WorkGroup::process: inside its chunk, the buffer the mode does not name
        receives the step of the one it names; the named buffer and every other
        index stay as they were. */
    method Process(bufA: array<int>, bufB: array<int>, width: nat)
      requires bufA != bufB && bufA.Length == n && bufB.Length == n
      modifies Next(mode, bufA, bufB)
      ensures forall k :: Begin(width) <= k < End(width) ==>
                Next(mode, bufA, bufB)[k] == StepAt(Current(mode, bufA, bufB)[..], offset, k)
      ensures forall k :: 0 <= k < n && !(Begin(width) <= k < End(width)) ==>
                Next(mode, bufA, bufB)[k] == old(Next(mode, bufA, bufB)[k])
    {
      var kBegin := id * width;
      var kEndClamp := Min(n, kBegin + width);
      var cur, next := Current(mode, bufA, bufB), Next(mode, bufA, bufB);
      assert kBegin == Begin(width) && kEndClamp == End(width);
      var k := kBegin;
      while k < kEndClamp
        invariant kBegin <= k && (k <= kEndClamp || k == kBegin)
        invariant forall i :: kBegin <= i < k && i < kEndClamp ==> next[i] == StepAt(cur[..], offset, i)
        invariant forall i :: 0 <= i < n && !(kBegin <= i < k) ==> next[i] == old(next[i])
      {
        if k >= offset {
          var j := k - offset;
          next[k] := cur[j] + cur[k];
        } else {
          next[k] := cur[k];
        }
        k := k + 1;
      }
    }
  }

  /** The buffer a depth reads in the given mode. */
  function Current(mode: DoubleBufferMode, bufA: array<int>, bufB: array<int>): array<int>
  {
    if mode == A then bufA else bufB
  }

  /** The buffer a depth writes in the given mode. */
  function Next(mode: DoubleBufferMode, bufA: array<int>, bufB: array<int>): array<int>
  {
    if mode == A then bufB else bufA
  }

  /** A schedule of one depth runs every chunk id below nChunks at least once. */
  predicate Covers(order: seq<nat>, nChunks: nat)
  {
    forall id :: 0 <= id < nChunks ==> id in order
  }

  /** One depth: the work groups of `order` run one after another. Their writes
      are disjoint and the buffer they read is never written, so any order that
      covers every chunk leaves the double-buffered step in the other buffer. */
  method Depth(bufA: array<int>, bufB: array<int>, n: nat, offset: nat, mode: DoubleBufferMode,
               width: nat, order: seq<nat>)
    requires bufA != bufB && bufA.Length == n && bufB.Length == n && width >= 1
    requires Covers(order, DivCeil(n, width))
    modifies Next(mode, bufA, bufB)
    ensures Next(mode, bufA, bufB)[..] == Step(Current(mode, bufA, bufB)[..], offset)
  {
    var cur, next := Current(mode, bufA, bufB), Next(mode, bufA, bufB);
    ghost var before := cur[..];
    for t := 0 to |order|
      invariant cur[..] == before
      invariant forall k :: 0 <= k < n && k / width in order[..t] ==> next[k] == StepAt(before, offset, k)
    {
      var wg := WorkGroup(order[t], n, offset, mode);
      wg.Process(bufA, bufB, width);
      forall k | 0 <= k < n && k / width == order[t]
        ensures wg.Begin(width) <= k < wg.End(width)
      {
        ChunkOfIndex(k, width);
      }
      assert order[..t + 1] == order[..t] + [order[t]];
    }
    forall k | 0 <= k < n
      ensures next[k] == StepAt(before, offset, k)
    {
      IndexInChunks(k, n, width);
      assert order[..|order|] == order;
    }
  }

  /** The worker threads' observable behaviour for a fixed first element:
      buf_a starts as [head, v_in[0..n-1)], buf_b as its copy, each depth d runs
      Depth with offset 2^d in mode ModeAfter(d), and the buffer the final mode
      names is copied to v_out. */
  method ScanFrom(head: int, vIn: seq<int>, vOut: array<int>, width: nat, schedule: nat -> seq<nat>)
    requires |vIn| == vOut.Length >= 1 && width >= 1
    requires forall d :: Covers(schedule(d), DivCeil(vOut.Length, width))
    modifies vOut
    ensures vOut[..] == ScanSpec(head, vIn)
  {
    var nOut := vOut.Length;
    var dEnd := CeilLog2(nOut);
    var mode: DoubleBufferMode;
    var bufA, bufB := LoadBuffers(head, vIn);
    ghost var x := Layout(head, vIn);
    mode := Depths(x, bufA, bufB, width, schedule, dEnd);
    var _ := Copy(Current(mode, bufA, bufB)[..], vOut, 0, nOut);
    TreeComputesScan(head, vIn, dEnd);
  }

  /** The buffers before depth 0: buf_a holds [head, v_in[0..n-1)], its first
      element being the value the buffer already held, and buf_b is its copy. */
  method LoadBuffers(head: int, vIn: seq<int>) returns (bufA: array<int>, bufB: array<int>)
    requires |vIn| >= 1
    ensures fresh(bufA) && fresh(bufB) && bufA != bufB
    ensures bufA[..] == Layout(head, vIn) && bufB[..] == bufA[..]
  {
    var n := |vIn|;
    bufA := new int[n](_ => head);
    bufB := new int[n];
    var _ := Copy(vIn[..n - 1], bufA, 1, n);
    forall k | 1 <= k < n
      ensures bufA[k] == vIn[k - 1]
    {
    }
    var _ := Copy(bufA[..], bufB, 0, n);
  }

  /** The depth loop of ScanFrom: depth d runs the chunks in the order schedule(d). */
  method Depths(ghost x: seq<int>, bufA: array<int>, bufB: array<int>, width: nat, schedule: nat -> seq<nat>, dEnd: nat)
    returns (mode: DoubleBufferMode)
    requires bufA != bufB && bufA.Length == bufB.Length == |x| && width >= 1
    requires forall d :: Covers(schedule(d), DivCeil(|x|, width))
    requires bufA[..] == x
    modifies bufA, bufB
    ensures mode == ModeAfter(dEnd)
    ensures Current(mode, bufA, bufB)[..] == TreeAfter(x, dEnd)
  {
    mode := DefaultMode;
    for d := 0 to dEnd
      invariant mode == ModeAfter(d)
      invariant Current(mode, bufA, bufB)[..] == TreeAfter(x, d)
    {
      var offset := Pow2(d);
      Depth(bufA, bufB, bufA.Length, offset, mode, width, schedule(d));
      mode := mode.GetAlternate();
    }
  }

  /** The status of a result of process for lengths nIn and nOut: the length
      check first, then the capacity check. */
  function Checks(nIn: nat, nOut: nat, elemSize: nat): (r: Status)
    requires elemSize >= 1
    ensures r.Ok? <==> nIn == nOut && BuffersFit(nOut, elemSize)
    ensures nIn != nOut ==> r == CheckArgs(nIn, nOut)
    ensures nIn == nOut && !BuffersFit(nOut, elemSize) ==> r == Err(CapacityExceeded(Capacity(elemSize), nOut))
  {
    CapacityExact(nOut, elemSize);
    if nIn != nOut then CheckArgs(nIn, nOut)
    else if nOut > Capacity(elemSize) then Err(CapacityExceeded(Capacity(elemSize), nOut))
    else Ok
  }

  /** The status of process as written: the length check first, then the
      refusal of sizes above n_buf = BUFFER_LENGTH / size, reported with n_buf. */
  function ChecksAsWritten(nIn: nat, nOut: nat, elemSize: nat): (r: Status)
    requires elemSize >= 1
    ensures r.Ok? <==> nIn == nOut && nOut <= CapacityAsWritten(elemSize)
    ensures nIn != nOut ==> r == CheckArgs(nIn, nOut)
    ensures nIn == nOut && nOut > CapacityAsWritten(elemSize) ==>
              r == Err(CapacityExceeded(CapacityAsWritten(elemSize), nOut))
  {
    if nIn != nOut then CheckArgs(nIn, nOut)
    else if nOut > CapacityAsWritten(elemSize) then Err(CapacityExceeded(CapacityAsWritten(elemSize), nOut))
    else Ok
  }

  /** The corrected check is stricter: whatever it accepts, the check as
      written accepts too; the two differ exactly on the sizes that pass the
      check as written but whose buffers do not fit. */
  lemma {:induction false} CorrectedCheckStricter(nIn: nat, nOut: nat, elemSize: nat)
    requires elemSize >= 1
    ensures Checks(nIn, nOut, elemSize).Ok? ==> ChecksAsWritten(nIn, nOut, elemSize).Ok?
    ensures ChecksAsWritten(nIn, nOut, elemSize).Ok? && !Checks(nIn, nOut, elemSize).Ok? <==>
              nIn == nOut && nOut <= CapacityAsWritten(elemSize) && !BuffersFit(nOut, elemSize)
  {
    if BuffersFit(nOut, elemSize) {
      var q := BUFFER_LENGTH / elemSize;
      assert BUFFER_LENGTH == q * elemSize + BUFFER_LENGTH % elemSize;
      assert nOut * elemSize <= 2 * nOut * elemSize;
      if nOut > q {
        var extra: nat := nOut - q - 1;
        Distribute(q + 1, extra, elemSize);
        Distribute(q, 1, elemSize);
        NatProduct(extra, elemSize);
        assert false;
      }
    }
  }

  /** Scan::process as written. The identity argument is ignored and buf_a[0]
      is never stored, so the first output element is what the scratch buffer
      held there before the call (scratch0, zero on the first call), and every
      output element is offset by it instead of by def. Sizes that pass the
      check as written but whose buffers do not fit make get_buffers panic;
      callers must avoid them. */
  method Process(scratch0: int, def: int, vIn: seq<int>, vOut: array<int>, elemSize: nat, width: nat,
                 schedule: nat -> seq<nat>) returns (r: Status)
    requires elemSize >= 1 && width >= 1
    requires |vIn| == vOut.Length ==> vOut.Length >= 1
    requires |vIn| == vOut.Length && vOut.Length <= CapacityAsWritten(elemSize) ==> BuffersFit(vOut.Length, elemSize)
    requires forall d :: Covers(schedule(d), DivCeil(vOut.Length, width))
    modifies vOut
    ensures r == ChecksAsWritten(|vIn|, vOut.Length, elemSize)
    ensures r.Err? ==> vOut[..] == old(vOut[..])
    ensures r.Ok? ==> vOut[..] == ScanSpec(scratch0, vIn)
  {
    r := ChecksAsWritten(|vIn|, vOut.Length, elemSize);
    if r.Err? {
      return;
    }
    ScanFrom(scratch0, vIn, vOut, width, schedule);
  }

  /** As written, the result does not depend on def: with the scratch buffer
      still zero, def = 5 and input [1] give [0], not the exclusive scan [5]. */
  method IdentityIgnored() returns (out: seq<int>)
    ensures out == [0] && out != ScanSpec(5, [1])
  {
    var a := new int[1];
    var r := Process(0, 5, [1], a, 8, 1, _ => [0]);
    assert ScanSpec(0, [1]) == [0] && ScanSpec(5, [1]) == [5];
    out := a[..];
  }

  /** Scan::process with buf_a[0] = def stored after the layout copy: the
      result is the exclusive scan from def, whatever the scratch buffer held. */
  method ProcessWithIdentity(def: int, vIn: seq<int>, vOut: array<int>, elemSize: nat, width: nat,
                             schedule: nat -> seq<nat>) returns (r: Status)
    requires elemSize >= 1 && width >= 1
    requires |vIn| == vOut.Length ==> vOut.Length >= 1
    requires forall d :: Covers(schedule(d), DivCeil(vOut.Length, width))
    modifies vOut
    ensures r == Checks(|vIn|, vOut.Length, elemSize)
    ensures r.Err? ==> vOut[..] == old(vOut[..])
    ensures r.Ok? ==> vOut[..] == ScanSpec(def, vIn)
  {
    r := Checks(|vIn|, vOut.Length, elemSize);
    if r.Err? {
      return;
    }
    ScanFrom(def, vIn, vOut, width, schedule);
  }

  /** What a worker finds in the status mailbox after a barrier. */
  datatype WorkStatus = NoWorkPresent | WorkPresent(offset: nat, mode: DoubleBufferMode) | Shutdown

  /** The work groups a worker with the given id runs for the statuses it
      observes: NoWorkPresent is skipped, WorkPresent runs its chunk with that
      offset and mode, Shutdown ends the loop. */
  function WorkerTrace(id: nat, n: nat, observed: seq<WorkStatus>): seq<WorkGroup>
    decreases |observed|
  {
    if |observed| == 0 then []
    else match observed[0]
      case NoWorkPresent => WorkerTrace(id, n, observed[1..])
      case WorkPresent(offset, mode) => [WorkGroup(id, n, offset, mode)] + WorkerTrace(id, n, observed[1..])
      case Shutdown => []
  }

  /** The loop of thread_body!, one observed status per barrier. */
  method WorkerLoop(id: nat, n: nat, observed: seq<WorkStatus>) returns (done: seq<WorkGroup>)
    ensures done == WorkerTrace(id, n, observed)
  {
    done := [];
    var i := 0;
    while i < |observed|
      invariant 0 <= i <= |observed|
      invariant WorkerTrace(id, n, observed) == done + WorkerTrace(id, n, observed[i..])
    {
      assert observed[i..][1..] == observed[i + 1..];
      match observed[i] {
        case NoWorkPresent =>
        case WorkPresent(offset, mode) =>
          done := done + [WorkGroup(id, n, offset, mode)];
        case Shutdown =>
          return;
      }
      i := i + 1;
    }
  }

  /** The statuses the main thread publishes at successive barriers: one
      WorkPresent per depth d with offset 2^d and the mode after d swaps, then
      Shutdown. */
  function Published(dEnd: nat): (s: seq<WorkStatus>)
    ensures |s| == dEnd + 1
  {
    seq(dEnd + 1, d requires 0 <= d <= dEnd => if d < dEnd then WorkPresent(Pow2(d), ModeAfter(d)) else Shutdown)
  }

  /** Every worker runs its chunk at every depth, in depth order, with the
      depth's offset and mode, and then stops. */
  lemma {:induction false} WorkerRunsEveryDepth(id: nat, n: nat, dEnd: nat, from: nat)
    requires from <= dEnd
    ensures WorkerTrace(id, n, Published(dEnd)[from..]) ==
            seq(dEnd - from, i requires 0 <= i < dEnd - from =>
              WorkGroup(id, n, Pow2(from + i), ModeAfter(from + i)))
    decreases dEnd - from
  {
    var s := Published(dEnd)[from..];
    if from < dEnd {
      assert s[1..] == Published(dEnd)[from + 1..];
      WorkerRunsEveryDepth(id, n, dEnd, from + 1);
    }
  }
}
