/** The capture loop of the streaming routine: read a block from the
    microphone driver, count it, print a status line on every tenth block,
    scan it for a peak, report a loud peak, and return the buffer to the
    memory slab. A failed read waits and tries again.

    Driver reads are abstract outcomes (a return code, the contents of the
    slab slot handed over, and the number of valid bytes); console output is
    a log of events. The pure functions `Iterate` and `Run` specify one pass
    and any finite prefix of the endless loop; the class `CaptureLoop` is the
    loop's mutable state, and its `Step` is proved to follow `Iterate`. */
module Capture {
  import opened BlockGeometry
  import opened Peak
  import opened Setup

  /** Delay before retrying a failed read, in ms. */
  const RetryDelayMs: nat := 10
  /** A status line is printed when the block count is a multiple of this. */
  const StatusEvery: nat := 10

  /** What the loop emits: a read error (block count and driver code), the
      retry delay, the status line of a block (its number, its sample count
      and its first sample), and a peak report. */
  datatype Event =
    | ReadError(block: nat, code: int)
    | Slept(ms: nat)
    | BlockStatus(block: nat, numSamples: nat, firstSample: int16)
    | PeakDetected(peak: int16)

  /** One outcome of a driver read: its return code, and on success the
      slab slot it handed over and how many of its bytes are valid. */
  datatype Read = Read(ret: int, slot: seq<int16>, size: nat)

  /** What the driver guarantees of a successful read: the buffer is one
      slab slot and the valid bytes fit in it. */
  predicate WellFormedRead(r: Read)
  {
    r.ret >= 0 ==> |r.slot| == SlotSamples() && r.size <= MaxBlockSize()
  }

  predicate AllWellFormed(outcomes: seq<Read>)
  {
    forall i :: 0 <= i < |outcomes| ==> WellFormedRead(outcomes[i])
  }

  /** The loop's state: the block counter, how many buffers were returned to
      the slab, and everything printed so far. */
  datatype LoopState = LoopState(blockCnt: nat, freed: nat, log: seq<Event>)

  /** The state on entry to the loop. */
  const Initial := LoopState(0, 0, [])

  /** The events printed for a successfully read block numbered `block`. */
  function BlockEvents(block: nat, slot: seq<int16>, size: nat): seq<Event>
    requires |slot| == SlotSamples() && size <= MaxBlockSize()
  {
    var n := NumSamples(size);
    var peak := RunningMax(slot[..n]);
    (if block % StatusEvery == 0 then [BlockStatus(block, n, slot[0])] else [])
    + (if PeakReported(peak) then [PeakDetected(peak)] else [])
  }

  /** One pass of the loop body. */
  function Iterate(s: LoopState, r: Read): LoopState
    requires WellFormedRead(r)
  {
    if r.ret < 0 then
      s.(log := s.log + [ReadError(s.blockCnt, r.ret), Slept(RetryDelayMs)])
    else
      s.(blockCnt := s.blockCnt + 1, freed := s.freed + 1,
         log := s.log + BlockEvents(s.blockCnt + 1, r.slot, r.size))
  }

  /** The loop run over a finite sequence of read outcomes. */
  function Run(s: LoopState, outcomes: seq<Read>): LoopState
    requires AllWellFormed(outcomes)
    decreases |outcomes|
  {
    if |outcomes| == 0 then s else Run(Iterate(s, outcomes[0]), outcomes[1..])
  }

  /** The number of successful reads. */
  function Successes(outcomes: seq<Read>): nat
  {
    if |outcomes| == 0 then 0 else (if outcomes[0].ret >= 0 then 1 else 0) + Successes(outcomes[1..])
  }

  /** The number of events in `log` that satisfy `p`. */
  function CountEvents(log: seq<Event>, p: Event -> bool): nat
  {
    if |log| == 0 then 0 else (if p(log[0]) then 1 else 0) + CountEvents(log[1..], p)
  }

  predicate IsStatus(e: Event) { e.BlockStatus? }

  lemma {:induction false} CountEventsAppend(a: seq<Event>, b: seq<Event>, p: Event -> bool)
    ensures CountEvents(a + b, p) == CountEvents(a, p) + CountEvents(b, p)
  {
    if |a| > 0 {
      assert (a + b)[1..] == a[1..] + b;
      CountEventsAppend(a[1..], b, p);
    } else {
      assert a + b == b;
    }
  }

  /** Running the loop on one more outcome is one more pass. */
  lemma {:induction false} RunSnoc(s: LoopState, outcomes: seq<Read>, r: Read)
    requires AllWellFormed(outcomes) && WellFormedRead(r)
    ensures AllWellFormed(outcomes + [r])
    ensures Run(s, outcomes + [r]) == Iterate(Run(s, outcomes), r)
    decreases |outcomes|
  {
    assert forall i :: 0 <= i < |outcomes| ==> (outcomes + [r])[i] == outcomes[i];
    if |outcomes| > 0 {
      assert (outcomes + [r])[1..] == outcomes[1..] + [r];
      RunSnoc(Iterate(s, outcomes[0]), outcomes[1..], r);
    }
  }

  /** A pass only appends to the log. */
  lemma {:induction false} RunExtendsLog(s: LoopState, outcomes: seq<Read>)
    requires AllWellFormed(outcomes)
    ensures |s.log| <= |Run(s, outcomes).log|
    ensures Run(s, outcomes).log[..|s.log|] == s.log
    decreases |outcomes|
  {
    if |outcomes| > 0 {
      var t := Iterate(s, outcomes[0]);
      RunExtendsLog(t, outcomes[1..]);
      assert t.log[..|s.log|] == s.log;
    }
  }

  /** Each successful read counts exactly one block and returns exactly one
      buffer to the slab; failed reads do neither. */
  lemma {:induction false} RunCountsSuccesses(s: LoopState, outcomes: seq<Read>)
    requires AllWellFormed(outcomes)
    ensures Run(s, outcomes).blockCnt == s.blockCnt + Successes(outcomes)
    ensures Run(s, outcomes).freed == s.freed + Successes(outcomes)
    decreases |outcomes|
  {
    if |outcomes| > 0 {
      RunCountsSuccesses(Iterate(s, outcomes[0]), outcomes[1..]);
    }
  }

  /** Any number of consecutive failed reads leaves the counter and the slab
      alone and prints only an error line and a retry delay per attempt. */
  lemma {:induction false} FailuresOnlyRetry(s: LoopState, outcomes: seq<Read>)
    requires AllWellFormed(outcomes)
    requires forall i :: 0 <= i < |outcomes| ==> outcomes[i].ret < 0
    ensures Run(s, outcomes).blockCnt == s.blockCnt
    ensures Run(s, outcomes).freed == s.freed
    ensures |Run(s, outcomes).log| == |s.log| + 2 * |outcomes|
    ensures forall k :: |s.log| <= k < |Run(s, outcomes).log| ==>
              Run(s, outcomes).log[k] == if (k - |s.log|) % 2 == 0
                                      then ReadError(s.blockCnt, outcomes[(k - |s.log|) / 2].ret)
                                      else Slept(RetryDelayMs)
    decreases |outcomes|
  {
    if |outcomes| > 0 {
      var t := Iterate(s, outcomes[0]);
      FailuresOnlyRetry(t, outcomes[1..]);
      RunExtendsLog(t, outcomes[1..]);
      var u := Run(t, outcomes[1..]);
      forall k | |s.log| <= k < |u.log|
        ensures u.log[k] == if (k - |s.log|) % 2 == 0
                            then ReadError(s.blockCnt, outcomes[(k - |s.log|) / 2].ret)
                            else Slept(RetryDelayMs)
      {
        if k >= |t.log| {
          assert (k - |s.log|) / 2 == (k - |t.log|) / 2 + 1;
          assert (k - |s.log|) % 2 == (k - |t.log|) % 2;
        } else {
          assert u.log[k] == u.log[..|t.log|][k] == t.log[k];
        }
      }
    }
  }

  /** However many reads fail first, the loop is still live: the next
      successful read counts a block. */
  lemma {:induction false} LiveAfterFailures(s: LoopState, fails: seq<Read>, r: Read)
    requires AllWellFormed(fails) && WellFormedRead(r)
    requires forall i :: 0 <= i < |fails| ==> fails[i].ret < 0
    requires r.ret >= 0
    ensures AllWellFormed(fails + [r])
    ensures Run(s, fails + [r]).blockCnt == s.blockCnt + 1
    ensures Run(s, fails + [r]).freed == s.freed + 1
  {
    RunSnoc(s, fails, r);
    FailuresOnlyRetry(s, fails);
  }

  /** One pass prints a status line exactly when it reads a block whose
      number is a multiple of ten. */
  lemma {:induction false} StatusOnEveryTenthBlock(s: LoopState, r: Read)
    requires WellFormedRead(r)
    ensures var t := Iterate(s, r);
            |s.log| <= |t.log| && t.log[..|s.log|] == s.log &&
            CountEvents(t.log[|s.log|..], IsStatus) ==
              if r.ret >= 0 && t.blockCnt % StatusEvery == 0 then 1 else 0
  {
    var t := Iterate(s, r);
    var added := t.log[|s.log|..];
    if r.ret < 0 {
      assert added == [ReadError(s.blockCnt, r.ret), Slept(RetryDelayMs)];
      assert added[1..] == [Slept(RetryDelayMs)];
      assert added[1..][1..] == [];
      assert CountEvents(added[1..], IsStatus) == 0;
    } else {
      var n := NumSamples(r.size);
      var peak := RunningMax(r.slot[..n]);
      var status := if t.blockCnt % StatusEvery == 0 then [BlockStatus(t.blockCnt, n, r.slot[0])] else [];
      var report := if PeakReported(peak) then [PeakDetected(peak)] else [];
      assert added == status + report;
      CountEventsAppend(status, report, IsStatus);
      if |status| > 0 { assert status[1..] == []; }
      if |report| > 0 { assert report[1..] == []; }
    }
  }

  /** Over any run, the number of status lines printed equals the number of
      multiples of ten the block counter passed. */
  lemma {:induction false} StatusLinesOverRun(s: LoopState, outcomes: seq<Read>)
    requires AllWellFormed(outcomes)
    ensures CountEvents(Run(s, outcomes).log, IsStatus) + s.blockCnt / StatusEvery ==
            CountEvents(s.log, IsStatus) + Run(s, outcomes).blockCnt / StatusEvery
    decreases |outcomes|
  {
    if |outcomes| > 0 {
      var t := Iterate(s, outcomes[0]);
      StatusOnEveryTenthBlock(s, outcomes[0]);
      assert s.log + t.log[|s.log|..] == t.log;
      CountEventsAppend(s.log, t.log[|s.log|..], IsStatus);
      if outcomes[0].ret >= 0 {
        assert t.blockCnt / StatusEvery ==
               s.blockCnt / StatusEvery + (if t.blockCnt % StatusEvery == 0 then 1 else 0);
      }
      StatusLinesOverRun(t, outcomes[1..]);
    }
  }

  /** From the loop's entry, exactly one status line per ten blocks read. */
  lemma {:induction false} StatusLinesFromStart(outcomes: seq<Read>)
    requires AllWellFormed(outcomes)
    ensures CountEvents(Run(Initial, outcomes).log, IsStatus) == Successes(outcomes) / StatusEvery
  {
    StatusLinesOverRun(Initial, outcomes);
    RunCountsSuccesses(Initial, outcomes);
  }

  /** One pass reports a peak exactly when it reads a block one of whose
      valid samples exceeds the threshold, and the value reported is that
      block's largest valid sample. */
  lemma {:induction false} PeakReportOfBlock(s: LoopState, r: Read)
    requires WellFormedRead(r) && r.ret >= 0
    ensures var t := Iterate(s, r);
            var n := NumSamples(r.size);
            |s.log| <= |t.log| && t.log[..|s.log|] == s.log &&
            (PeakDetected(RunningMax(r.slot[..n])) in t.log[|s.log|..] <==>
               exists i :: 0 <= i < n && r.slot[i] > PeakThreshold) &&
            (forall e :: e in t.log[|s.log|..] && e.PeakDetected? ==>
               e.peak > PeakThreshold &&
               (forall i :: 0 <= i < n ==> r.slot[i] <= e.peak) &&
               (exists i :: 0 <= i < n && r.slot[i] == e.peak))
  {
    var t := Iterate(s, r);
    var n := NumSamples(r.size);
    var added := t.log[|s.log|..];
    var block := r.slot[..n];
    var peak := RunningMax(block);
    RunningMaxIsPeak(block);
    PeakReportedIffLoudSample(block);
    NegativeBranchUnreachable(block);
    var status := if t.blockCnt % StatusEvery == 0 then [BlockStatus(t.blockCnt, n, r.slot[0])] else [];
    var report := if PeakReported(peak) then [PeakDetected(peak)] else [];
    assert added == status + report;
    assert forall i :: 0 <= i < n ==> block[i] == r.slot[i];
  }

  /** A block shorter than one sample has nothing to scan: no peak is
      reported for it. */
  lemma ShortBlockNoPeak(s: LoopState, r: Read)
    requires WellFormedRead(r)
    requires r.size < BytesPerSample
    ensures forall e :: e in Iterate(s, r).log[|s.log|..] ==> !e.PeakDetected?
  {
  }

  /** The capture loop's mutable state. `held` counts the buffers received
      from the driver and not yet returned to the slab. */
  class CaptureLoop {
    var blockCnt: nat
    var freed: nat
    var log: seq<Event>
    var held: nat

    /** The loop never holds more than one buffer, well within the slab. */
    ghost predicate Valid()
      reads this
      ensures Valid() ==> held < BlockCount
    {
      held <= 1
    }

    function State(): LoopState
      reads this
    {
      LoopState(blockCnt, freed, log)
    }

    /** Entry into the loop: the counter starts at 0 and no buffer is held. */
    constructor ()
      ensures Valid() && held == 0
      ensures State() == Initial
    {
      blockCnt, freed, log, held := 0, 0, [], 0;
    }

    /** Take ownership of the buffer a successful read handed over. */
    method Receive()
      requires Valid() && held == 0
      modifies this
      ensures Valid() && held == 1
      ensures State() == old(State())
    {
      held := held + 1;
    }

    /** Return the held buffer to the slab. */
    method Free()
      requires Valid() && held == 1
      modifies this
      ensures Valid() && held == 0
      ensures blockCnt == old(blockCnt) && log == old(log)
      ensures freed == old(freed) + 1
    {
      held := held - 1;
      freed := freed + 1;
    }

    /** One pass of the loop on the driver's outcome `ret`, `buffer`, `size`:
        the buffer of a successful read is freed exactly once, before the
        next read. */
    method Step(ret: int, buffer: array<int16>, size: nat)
      requires Valid() && held == 0
      requires ret >= 0 ==> buffer.Length == SlotSamples() && size <= MaxBlockSize()
      modifies this
      ensures Valid() && held == 0
      ensures State() == Iterate(old(State()), Read(ret, buffer[..], size))
    {
      if ret < 0 {
        log := log + [ReadError(blockCnt, ret)];
        log := log + [Slept(RetryDelayMs)];
        return;
      }
      Receive();
      blockCnt := blockCnt + 1;
      var numSamples := NumSamples(size);
      var added: seq<Event> := [];
      if blockCnt % StatusEvery == 0 {
        added := added + [BlockStatus(blockCnt, numSamples, buffer[0])];
      }
      var maxVal := PeakScan(buffer, numSamples);
      if PeakReported(maxVal) {
        added := added + [PeakDetected(maxVal)];
      }
      log := log + added;
      Free();
    }
  }

  /** The streaming routine up to the loop: start-up, and on success a fresh
      loop in its entry state. */
  method StartStreaming(gpioReady: bool, configureRet: int, triggerRet: int) returns (loop: CaptureLoop?)
    ensures loop != null <==> StreamSetup(gpioReady, configureRet, triggerRet).exit == Streaming
    ensures loop != null ==> fresh(loop) && loop.Valid() && loop.held == 0 && loop.State() == Initial
  {
    var setup := StreamSetup(gpioReady, configureRet, triggerRet);
    if setup.exit != Streaming {
      return null;
    }
    loop := new CaptureLoop();
  }
}
