/** The worker thread (`threadVideo`, `threadAudio`) around its cycle
    (`threadVideoSelectLoop`, `threadAudioSelectLoop`): startup, the sound
    card, the loop with its periodic window, and the unwind chain. The two
    source files differ only in the number of reads per cycle, which is the
    `readCount` of a `Pipeline`. */
module Pipeline {
  import opened Events
  import opened Soundcard
  import opened Cycle
  import opened Periodic
  import opened Lifecycle

  /** What one pass of the loop sees: the terminate flag, the clock reading
      and the outcomes of the calls its cycle makes. */
  datatype Tick = Tick(terminate: bool, clock: ClockRead, cycle: CycleEnv)

  /** Everything a thread's run depends on. The loop is observed over the
      passes in `ticks`; when they run out the terminate flag is taken as set. */
  datatype ThreadEnv = ThreadEnv(start: StartEnv, soundcard: SetupResults, ticks: seq<Tick>)

  /** Every cycle is given one outcome per read it makes. */
  predicate SuppliesTicks(ticks: seq<Tick>, n: nat)
  {
    forall i | 0 <= i < |ticks| :: |ticks[i].cycle.blocks| == n
  }

  /** Inside the loop the runtime, engine and framebuffer are known non-null. */
  const Present := Handles(true, true, true)

  /** The exit code of the loop, the state it leaves and the calls it made. */
  datatype LoopResult = LoopResult(exitCode: int, state: LoopState, events: seq<Event>)

  /** The loop from pass `i` on, after the calls `done` of the passes
      before it, as its `while` condition sees it: stop with 0 once the
      terminate flag is set, run pass `i` otherwise. */
  function LoopSpec(st: LoopState, ticks: seq<Tick>, n: nat, i: nat, done: seq<Event>): LoopResult
    requires FitsSource(n) && SuppliesTicks(ticks, n)
    decreases |ticks| - i, 2
  {
    if i >= |ticks| || ticks[i].terminate then LoopResult(0, st, done)
    else ClockThen(st, ticks, n, i, done)
  }

  /** Pass `i` reads the clock first and stops with its status when that
      fails. */
  function ClockThen(st: LoopState, ticks: seq<Tick>, n: nat, i: nat, done: seq<Event>): LoopResult
    requires FitsSource(n) && SuppliesTicks(ticks, n) && i < |ticks|
    decreases |ticks| - i, 1
  {
    if ticks[i].clock.status != 0 then LoopResult(ticks[i].clock.status, st, done)
    else CycleThen(st, ticks, n, i, done)
  }

  /** The rest of pass `i`: the window check, then the cycle; a failing
      cycle stops the loop with its status, a succeeding one is counted and
      the loop goes on with pass `i + 1`. */
  function CycleThen(st: LoopState, ticks: seq<Tick>, n: nat, i: nat, done: seq<Event>): LoopResult
    requires FitsSource(n) && SuppliesTicks(ticks, n) && i < |ticks|
    decreases |ticks| - i, 0
  {
    var w := Window(st, ticks[i].clock.time);
    var cycle := CycleSpec(Present, ticks[i].cycle);
    if cycle.status != 0 then LoopResult(cycle.status, w.state, done + w.events + cycle.events)
    else
      LoopSpec(w.state.(procFrames := w.state.procFrames + 1), ticks, n, i + 1, done + w.events + cycle.events)
  }

  /** The whole loop, from the first pass with no calls made yet. */
  function Loop(st: LoopState, ticks: seq<Tick>, n: nat): LoopResult
    requires FitsSource(n) && SuppliesTicks(ticks, n)
  {
    LoopSpec(st, ticks, n, 0, [])
  }

  /** Running the loop from the start comes to what running it from pass
      `i` in state `st` comes to, once the calls `done` have been made. */
  ghost predicate Resumes(st0: LoopState, ticks: seq<Tick>, n: nat, st: LoopState, i: nat, done: seq<Event>)
    requires FitsSource(n) && SuppliesTicks(ticks, n)
  {
    Loop(st0, ticks, n) == LoopSpec(st, ticks, n, i, done)
  }

  /** Exit code, final `proc_frames` and calls made by a whole run. */
  datatype RunResult = RunResult(exitCode: int, procFrames: nat, events: seq<Event>)

  /** A whole run: startup; on failure the unwind from the label the failure
      jumps to under `labels`; on success the sound card setup, the loop and
      the unwind from the top of the chain. `procFrames` is the counter's
      value on entry. The source's run is the one with `AsWritten`. */
  function RunSpec(env: ThreadEnv, n: nat, procFrames: nat, labels: LabelTable): RunResult
    requires FitsSource(n) && SuppliesTicks(env.ticks, n)
  {
    match StartSpec(env.start)
    case Aborted(code, failed, evs) =>
      RunResult(code, procFrames, evs + UnwindEvents(FailureLabel(labels, failed)))
    case Started(_, _, reference, evs) =>
      var loop := Loop(LoopState(procFrames, reference), env.ticks, n);
      RunResult(loop.exitCode, loop.state.procFrames,
                evs + [SoundcardInit] + loop.events + UnwindEvents(ExitFbStop))
  }

  /** One worker: the file-level frame counter and the calls made so far. */
  class Pipeline {
    /** Reads per cycle (`ncount`). */
    const readCount: nat
    /** `proc_frames`: cycles completed since the last FPS report. */
    var procFrames: nat
    /** The calls made so far, in order. */
    ghost var events: seq<Event>

    constructor (n: nat)
      requires FitsSource(n)
      ensures readCount == n && procFrames == 0 && events == []
    {
      readCount := n;
      procFrames := 0;
      events := [];
    }

    /** `InputReportFPS`: report thousandths of frames per second over `ms`
        milliseconds, reset the counter, and return 0. */
    method ReportFps(ms: int) returns (status: int)
      requires ms > 0
      modifies this
      ensures status == 0
      ensures procFrames == 0
      ensures events == old(events) + [FpsReported(Kfps(old(procFrames), ms))]
    {
      var kfps := (procFrames * 1000 * 1000) / ms;
      events := events + [FpsReported(kfps)];
      procFrames := 0;
      return 0;
    }

    /** The window check at the top of a pass: returns the new reference. */
    method PeriodicWindow(reference: TimeSpec, now: TimeSpec) returns (next: TimeSpec)
      modifies this
      ensures var w := Window(LoopState(old(procFrames), reference), now);
              procFrames == w.state.procFrames && next == w.state.reference &&
              events == old(events) + w.events
    {
      var ms := (now.sec - reference.sec) * MsPerSec + TruncDiv(now.nsec - reference.nsec, NsPerMs);
      next := reference;
      if ms >= WindowMs {
        next := next.(sec := next.sec + WindowSec);
        events := events + [ReportLoad(ms)];
        var _ := ReportFps(ms);
      }
    }

    /** The read loop of a cycle: a zeroed source frame, then one read per
        block copied to its place; stops at the first read that fails. */
    method ReadSource(blocks: seq<ReadOutcome>) returns (status: int, source: seq<Byte>)
      requires FitsSource(|blocks|)
      modifies this`events
      ensures status == Fill(blocks, 0).status
      ensures events == old(events) + Fill(blocks, 0).events
      ensures status == 0 ==> source == Source(blocks)
    {
      var buffer := new Byte[FrameSourceSize];
      forall k | 0 <= k < buffer.Length {
        buffer[k] := 0;
      }
      ghost var fillEvents: seq<Event> := [];
      var i := 0;
      while i < |blocks|
        invariant 0 <= i <= |blocks|
        invariant forall k | 0 <= k < i * BlockBytes :: buffer[k] == Source(blocks)[k]
        invariant forall k | i * BlockBytes <= k < FrameSourceSize :: buffer[k] == 0
        invariant forall m | 0 <= m < i :: ReadStatus(blocks[m]) == 0
        invariant fillEvents == FilledEvents(blocks, i)
        invariant events == old(events) + fillEvents
      {
        var status := ReadBlock(blocks[i], i);
        if status != 0 {
          FillAfterPrefix(blocks, i);
          return status, [];
        }
        CopyBlock(buffer, blocks, i);
        fillEvents := fillEvents + ReadEvents(blocks[i], i);
        i := i + 1;
      }
      FillAfterPrefix(blocks, i);
      SourceFromParts(buffer[..], blocks);
      return 0, buffer[..];
    }

    /** One read of 512 frames; after an overrun the device is prepared
        again and the cycle goes on unless that fails. */
    method ReadBlock(r: ReadOutcome, i: nat) returns (status: int)
      modifies this`events
      ensures status == ReadStatus(r)
      ensures events == old(events) + ReadEvents(r, i)
    {
      events := events + [ReadI(i)];
      if r.frames != MaxFrames {
        if r.frames == BrokenPipe {
          events := events + [PrepareAfterOverrun(i)];
          if r.prepare < 0 {
            return PrepareError;
          }
        } else {
          return SndReadError;
        }
      }
      return 0;
    }

    /** The inner copy loop: read `i`'s buffer into its place in the frame. */
    static method CopyBlock(buffer: array<Byte>, blocks: seq<ReadOutcome>, i: nat)
      requires buffer.Length == FrameSourceSize && FitsSource(|blocks|) && i < |blocks|
      requires forall k | 0 <= k < i * BlockBytes :: buffer[k] == Source(blocks)[k]
      requires forall k | i * BlockBytes <= k < FrameSourceSize :: buffer[k] == 0
      modifies buffer
      ensures forall k | 0 <= k < (i + 1) * BlockBytes :: buffer[k] == Source(blocks)[k]
      ensures forall k | (i + 1) * BlockBytes <= k < FrameSourceSize :: buffer[k] == 0
    {
      var j := 0;
      while j < BlockBytes
        invariant 0 <= j <= BlockBytes
        invariant forall k | 0 <= k < i * BlockBytes + j :: buffer[k] == Source(blocks)[k]
        invariant forall k | i * BlockBytes + j <= k < FrameSourceSize :: buffer[k] == 0
      {
        ConcatBlockAt(blocks, i, j);
        buffer[i * BlockBytes + j] := blocks[i].data[j];
        j := j + 1;
      }
    }

    /** One cycle: the prelude calls, `readCount` reads copied one after
        another into a zeroed source frame, transcode, putFrame and the
        report; each failure returns its status at once. */
    method SelectLoop(h: Handles, env: CycleEnv) returns (res: int)
      requires FitsSource(readCount) && |env.blocks| == readCount
      modifies this
      ensures res == CycleSpec(h, env).status
      ensures events == old(events) + CycleSpec(h, env).events
      ensures procFrames == if res == 0 then old(procFrames) + 1 else old(procFrames)
    {
      if !h.runtime || !h.engine || !h.framebuffer {
        return EInval;
      }
      events := events + [GetFrame];
      if env.getFrame != 0 {
        return env.getFrame;
      }
      events := events + [GetTargetDetectParams];
      if env.paramsStatus != 0 {
        assert events == old(events) + Prelude[..2];
        return env.paramsStatus;
      }
      events := events + [FetchTargetDetectCommand];
      if env.commandStatus != 0 {
        assert events == old(events) + Prelude[..3];
        return env.commandStatus;
      }
      events := events + [GetVideoOutParams];
      assert events == old(events) + Prelude;
      if env.videoOutStatus != 0 {
        return env.videoOutStatus;
      }

      var status, source := ReadSource(env.blocks);
      if status != 0 {
        return status;
      }
      res := Deliver(env, source);
      assert events == old(events) + (Prelude + Fill(env.blocks, 0).events + Delivery(env).events);
      if res != 0 {
        return res;
      }
      procFrames := procFrames + 1;
      return 0;
    }

    /** Transcode, putFrame and the report, each returning its status at
        once on failure. */
    method Deliver(env: CycleEnv, source: seq<Byte>) returns (res: int)
      requires FitsSource(|env.blocks|) && source == Source(env.blocks)
      modifies this`events
      ensures res == Delivery(env).status
      ensures events == old(events) + Delivery(env).events
    {
      var transcode := TranscodeFrame(source, env.params, env.command, env.videoOutEnable);
      events := events + [transcode];
      if env.transcodeStatus != 0 {
        return env.transcodeStatus;
      }
      events := events + [PutFrame];
      if env.putFrameStatus != 0 {
        return env.putFrameStatus;
      }
      if env.dispatched.cmd == 1 {
        events := events + [ReportTargetDetectParams(env.confirmed)];
      } else {
        events := events + [ReportTargetLocation(env.location)];
      }
      return env.reportStatus;
    }

    /** Entering the unwind chain at `l`: each label's call, then the
        labels below it. Statuses of these calls only reach the log. */
    method Unwind(l: Label)
      modifies this
      ensures events == old(events) + UnwindEvents(l)
      ensures procFrames == old(procFrames)
    {
      var at := LabelIndex(l);
      if at <= 0 {
        events := events + [FbOutputStop];
      }
      if at <= 1 {
        events := events + [CodecEngineStop];
      }
      if at <= 2 {
        events := events + [FbOutputClose];
      }
      if at <= 3 {
        events := events + [CodecEngineClose];
      }
      events := events + [SetTerminate, CloseSoundcard];
    }

    /** The body of the loop: the clock, the window check and the cycle of
        pass `i`; returns the status (0 to go on), the new reference and the
        calls made. The loop from pass `i` on comes to this pass's outcome
        when it fails and to the loop from pass `i + 1` on when it succeeds. */
    method Pass(reference: TimeSpec, ticks: seq<Tick>, i: nat, ghost done: seq<Event>)
      returns (status: int, next: TimeSpec, ghost passEvents: seq<Event>)
      requires FitsSource(readCount) && SuppliesTicks(ticks, readCount)
      requires i < |ticks| && !ticks[i].terminate
      modifies this
      ensures events == old(events) + passEvents
      ensures LoopSpec(LoopState(old(procFrames), reference), ticks, readCount, i, done) ==
              if status != 0 then LoopResult(status, LoopState(procFrames, next), done + passEvents)
              else LoopSpec(LoopState(procFrames, next), ticks, readCount, i + 1, done + passEvents)
    {
      var t := ticks[i];
      ghost var st := LoopState(procFrames, reference);
      assert LoopSpec(st, ticks, readCount, i, done) == ClockThen(st, ticks, readCount, i, done);
      if t.clock.status != 0 {
        return t.clock.status, reference, [];
      }
      assert ClockThen(st, ticks, readCount, i, done) == CycleThen(st, ticks, readCount, i, done);
      ghost var w := Window(st, t.clock.time);
      ghost var cycle := CycleSpec(Present, t.cycle);
      next := PeriodicWindow(reference, t.clock.time);
      status := SelectLoop(Present, t.cycle);
      passEvents := w.events + cycle.events;
      assert done + w.events + cycle.events == done + passEvents;
    }

    /** The loop: until the terminate flag is seen, one pass after another;
        a failing pass ends the loop with its status. */
    method RunLoop(start: TimeSpec, ticks: seq<Tick>) returns (exitCode: int)
      requires FitsSource(readCount) && SuppliesTicks(ticks, readCount)
      modifies this
      ensures var r := Loop(LoopState(old(procFrames), start), ticks, readCount);
              exitCode == r.exitCode && procFrames == r.state.procFrames && events == old(events) + r.events
    {
      ghost var done: seq<Event> := [];
      var reference := start;
      var i := 0;
      while i < |ticks| && !ticks[i].terminate
        invariant 0 <= i <= |ticks|
        invariant Resumes(LoopState(old(procFrames), start), ticks, readCount, LoopState(procFrames, reference), i, done)
        invariant events == old(events) + done
      {
        var status;
        ghost var passEvents;
        status, reference, passEvents := Pass(reference, ticks, i, done);
        done := done + passEvents;
        if status != 0 {
          return status;
        }
        i := i + 1;
      }
      return 0;
    }

    /** The thread body: startup, the sound card, the loop, the unwind. The
        result of the sound card setup is not looked at. */
    method ThreadMain(env: ThreadEnv) returns (exitCode: int)
      requires FitsSource(readCount) && SuppliesTicks(env.ticks, readCount)
      modifies this
      ensures var r := RunSpec(env, readCount, old(procFrames), AsWritten);
              exitCode == r.exitCode && procFrames == r.procFrames && events == old(events) + r.events
    {
      var s := Startup(env.start);
      if s.Aborted? {
        events := events + s.events;
        Unwind(LabelOnFailureAsWritten(s.failed));
        return s.code;
      }
      events := events + s.events + [SoundcardInit];
      var _ := InitSoundcard(env.soundcard);
      exitCode := RunLoop(s.reference, env.ticks);
      Unwind(ExitFbStop);
    }
  }
}
