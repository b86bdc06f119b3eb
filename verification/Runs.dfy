/** What the loop and a whole run of a worker thread promise: when the loop
    ends with 0, how many reports it makes, how its reference time moves,
    what a run gives back and how it ends. */
module Runs {
  import opened Common
  import opened Events
  import opened Cycle
  import opened Periodic
  import opened Lifecycle
  import opened Pipeline

  /** The pass at which the loop stops at the latest: the first one with the
      terminate flag set, or the end of the observed passes. */
  function FirstStop(ticks: seq<Tick>, i: nat): (k: nat)
    requires i <= |ticks|
    ensures i <= k <= |ticks|
    ensures k == |ticks| || ticks[k].terminate
    ensures forall j | i <= j < k :: !ticks[j].terminate
    decreases |ticks| - i
  {
    if i == |ticks| || ticks[i].terminate then i else FirstStop(ticks, i + 1)
  }

  /** A pass goes on: its clock read and its cycle both succeed. */
  predicate PassOk(t: Tick)
    requires FitsSource(|t.cycle.blocks|)
  {
    t.clock.status == 0 && CycleSpec(Present, t.cycle).status == 0
  }

  /** The loop ends with 0 exactly when every pass before the terminate
      flag goes on. A cycle's outcome does not depend on the loop's state,
      so neither does the exit code. */
  lemma {:induction false} LoopExitsCleanIff(st: LoopState, ticks: seq<Tick>, n: nat, i: nat, done: seq<Event>)
    requires FitsSource(n) && SuppliesTicks(ticks, n) && i <= |ticks|
    ensures LoopSpec(st, ticks, n, i, done).exitCode == 0 <==>
              forall k | i <= k < FirstStop(ticks, i) :: PassOk(ticks[k])
    decreases |ticks| - i
  {
    if i < |ticks| && !ticks[i].terminate {
      assert LoopSpec(st, ticks, n, i, done) == ClockThen(st, ticks, n, i, done);
      if ticks[i].clock.status == 0 {
        assert ClockThen(st, ticks, n, i, done) == CycleThen(st, ticks, n, i, done);
        var w := Window(st, ticks[i].clock.time);
        var cycle := CycleSpec(Present, ticks[i].cycle);
        if cycle.status == 0 {
          LoopExitsCleanIff(w.state.(procFrames := w.state.procFrames + 1), ticks, n, i + 1,
                            done + w.events + cycle.events);
        }
      }
    }
  }

  /** A failing pass ends the loop with its own status: the clock's when
      the clock read fails, the cycle's otherwise. */
  lemma {:induction false} LoopStopsAtFirstFailure(st: LoopState, ticks: seq<Tick>, n: nat, i: nat, done: seq<Event>, k: nat)
    requires FitsSource(n) && SuppliesTicks(ticks, n) && i <= |ticks|
    requires i <= k < FirstStop(ticks, i)
    requires forall j | i <= j < k :: PassOk(ticks[j])
    requires !PassOk(ticks[k])
    ensures LoopSpec(st, ticks, n, i, done).exitCode ==
              if ticks[k].clock.status != 0 then ticks[k].clock.status
              else CycleSpec(Present, ticks[k].cycle).status
    ensures LoopSpec(st, ticks, n, i, done).exitCode != 0
    decreases k - i
  {
    assert LoopSpec(st, ticks, n, i, done) == ClockThen(st, ticks, n, i, done);
    if i < k {
      assert ClockThen(st, ticks, n, i, done) == CycleThen(st, ticks, n, i, done);
      var w := Window(st, ticks[i].clock.time);
      var cycle := CycleSpec(Present, ticks[i].cycle);
      assert FirstStop(ticks, i) == FirstStop(ticks, i + 1);
      LoopStopsAtFirstFailure(w.state.(procFrames := w.state.procFrames + 1), ticks, n, i + 1,
                              done + w.events + cycle.events, k);
    } else if ticks[k].clock.status == 0 {
      assert ClockThen(st, ticks, n, i, done) == CycleThen(st, ticks, n, i, done);
    }
  }

  /** A window check makes no report. */
  lemma WindowMakesNoReport(st: LoopState, now: TimeSpec)
    ensures ReportCount(Window(st, now).events) == 0
  {
    ReportCountNone(Window(st, now).events);
  }

  /** A loop that ends with 0 makes exactly one report per pass. */
  lemma {:induction false} LoopReportsOncePerPass(st: LoopState, ticks: seq<Tick>, n: nat, i: nat, done: seq<Event>)
    requires FitsSource(n) && SuppliesTicks(ticks, n) && i <= |ticks|
    requires LoopSpec(st, ticks, n, i, done).exitCode == 0
    ensures ReportCount(LoopSpec(st, ticks, n, i, done).events) == ReportCount(done) + (FirstStop(ticks, i) - i)
    decreases |ticks| - i
  {
    if i < |ticks| && !ticks[i].terminate {
      assert LoopSpec(st, ticks, n, i, done) == ClockThen(st, ticks, n, i, done);
      assert ClockThen(st, ticks, n, i, done) == CycleThen(st, ticks, n, i, done);
      var w := Window(st, ticks[i].clock.time);
      var env := ticks[i].cycle;
      var cycle := CycleSpec(Present, env);
      CycleSucceedsIff(Present, env);
      FillSucceedsIff(env.blocks, 0);
      CycleReportsOnce(Present, env);
      WindowMakesNoReport(st, ticks[i].clock.time);
      ReportCountAppend(done, w.events);
      ReportCountAppend(done + w.events, cycle.events);
      LoopReportsOncePerPass(w.state.(procFrames := w.state.procFrames + 1), ticks, n, i + 1,
                             done + w.events + cycle.events);
    }
  }

  /** The reference time is only ever moved on by whole windows: its
      nanoseconds never change and its seconds grow by a multiple of ten. */
  lemma {:induction false} LoopReferenceDriftFree(st: LoopState, ticks: seq<Tick>, n: nat, i: nat, done: seq<Event>)
    requires FitsSource(n) && SuppliesTicks(ticks, n)
    ensures var r := LoopSpec(st, ticks, n, i, done).state.reference;
            r.nsec == st.reference.nsec &&
            exists m: nat :: r.sec == st.reference.sec + m * WindowSec
    decreases |ticks| - i
  {
    var r := LoopSpec(st, ticks, n, i, done).state.reference;
    if i < |ticks| && !ticks[i].terminate {
      assert LoopSpec(st, ticks, n, i, done) == ClockThen(st, ticks, n, i, done);
      if ticks[i].clock.status != 0 {
        assert r.sec == st.reference.sec + 0 * WindowSec;
      } else {
        assert ClockThen(st, ticks, n, i, done) == CycleThen(st, ticks, n, i, done);
        var w := Window(st, ticks[i].clock.time);
        var cycle := CycleSpec(Present, ticks[i].cycle);
        var a: nat := if w.state.reference == st.reference then 0 else 1;
        assert w.state.reference.sec == st.reference.sec + a * WindowSec;
        if cycle.status != 0 {
          assert r.sec == st.reference.sec + a * WindowSec;
        } else {
          var next := w.state.(procFrames := w.state.procFrames + 1);
          LoopReferenceDriftFree(next, ticks, n, i + 1, done + w.events + cycle.events);
          var m: nat :| r.sec == next.reference.sec + m * WindowSec;
          assert r.sec == st.reference.sec + (a + m) * WindowSec;
        }
      }
    } else {
      assert r.sec == st.reference.sec + 0 * WindowSec;
    }
  }

  /** The counter grows by at most one per pass (a window resets it). */
  lemma {:induction false} LoopCountsAtMostOnePerPass(st: LoopState, ticks: seq<Tick>, n: nat, i: nat, done: seq<Event>)
    requires FitsSource(n) && SuppliesTicks(ticks, n) && i <= |ticks|
    ensures LoopSpec(st, ticks, n, i, done).state.procFrames <= st.procFrames + (FirstStop(ticks, i) - i)
    decreases |ticks| - i
  {
    if i < |ticks| && !ticks[i].terminate {
      assert LoopSpec(st, ticks, n, i, done) == ClockThen(st, ticks, n, i, done);
      if ticks[i].clock.status == 0 {
        assert ClockThen(st, ticks, n, i, done) == CycleThen(st, ticks, n, i, done);
        var w := Window(st, ticks[i].clock.time);
        var cycle := CycleSpec(Present, ticks[i].cycle);
        if cycle.status == 0 {
          LoopCountsAtMostOnePerPass(w.state.(procFrames := w.state.procFrames + 1), ticks, n, i + 1,
                                     done + w.events + cycle.events);
        }
      }
    }
  }

  /** The loop adds only cycle and window calls to the calls before it. */
  lemma {:induction false} LoopCallsOnly(st: LoopState, ticks: seq<Tick>, n: nat, i: nat, done: seq<Event>)
    requires FitsSource(n) && SuppliesTicks(ticks, n)
    ensures forall e | e in LoopSpec(st, ticks, n, i, done).events :: e in done || e.IsCycleCall() || e.IsWindowCall()
    decreases |ticks| - i
  {
    if i < |ticks| && !ticks[i].terminate {
      assert LoopSpec(st, ticks, n, i, done) == ClockThen(st, ticks, n, i, done);
      if ticks[i].clock.status == 0 {
        assert ClockThen(st, ticks, n, i, done) == CycleThen(st, ticks, n, i, done);
        var w := Window(st, ticks[i].clock.time);
        var cycle := CycleSpec(Present, ticks[i].cycle);
        CycleCallsOnly(Present, ticks[i].cycle);
        if cycle.status == 0 {
          LoopCallsOnly(w.state.(procFrames := w.state.procFrames + 1), ticks, n, i + 1,
                        done + w.events + cycle.events);
        }
      }
    }
  }

  // ---------------------------------------------------------------------
  // A whole run

  /** The label a run enters the unwind chain at. */
  function ExitLabel(start: StartEnv, labels: LabelTable): Label
  {
    match StartSpec(start)
    case Aborted(_, failed, _) => FailureLabel(labels, failed)
    case Started(_, _, _, _) => ExitFbStop
  }

  /** The calls a run makes before its unwind: startup, then (once started)
      the sound card setup and the loop. None of them is a teardown call. */
  lemma RunBeforeUnwind(env: ThreadEnv, n: nat, procFrames: nat, labels: LabelTable)
    requires FitsSource(n) && SuppliesTicks(env.ticks, n)
    ensures var evs := RunSpec(env, n, procFrames, labels).events;
            var u := UnwindEvents(ExitLabel(env.start, labels));
            |u| <= |evs| && evs == evs[..|evs| - |u|] + u &&
            forall e | e in evs[..|evs| - |u|] :: e.IsStartupCall() || e.IsCycleCall() || e.IsWindowCall()
  {
    StartupCallsOnly(env.start);
    match StartSpec(env.start)
    case Aborted(_, failed, evs) =>
      var all := evs + UnwindEvents(FailureLabel(labels, failed));
      assert all[..|evs|] == evs;
    case Started(_, _, reference, evs) =>
      var loop := Loop(LoopState(procFrames, reference), env.ticks, n);
      LoopCallsOnly(LoopState(procFrames, reference), env.ticks, n, 0, []);
      var front := evs + [SoundcardInit] + loop.events;
      var all := front + UnwindEvents(ExitFbStop);
      assert all[..|front|] == front;
  }

  /** A run ends with 0 exactly when startup succeeds and every pass before
      the terminate flag goes on; a failed startup ends with its nonzero
      code. */
  lemma RunExitsCleanIff(env: ThreadEnv, n: nat, procFrames: nat, labels: LabelTable)
    requires FitsSource(n) && SuppliesTicks(env.ticks, n)
    ensures RunSpec(env, n, procFrames, labels).exitCode == 0 <==>
              StartSpec(env.start).Started? && forall k | 0 <= k < FirstStop(env.ticks, 0) :: PassOk(env.ticks[k])
    ensures StartSpec(env.start).Aborted? ==> RunSpec(env, n, procFrames, labels).exitCode == StartSpec(env.start).code
  {
    StartupOutcome(env.start);
    if StartSpec(env.start).Started? {
      LoopExitsCleanIff(LoopState(procFrames, StartSpec(env.start).reference), env.ticks, n, 0, []);
    }
  }

  /** Calls that are not teardown calls, followed by the unwind from `l`:
      the terminate flag and the sound card close come last and only
      there. */
  lemma UnwindComesLast(front: seq<Event>, l: Label)
    requires forall e | e in front :: e.IsStartupCall() || e.IsCycleCall() || e.IsWindowCall()
    ensures var evs := front + UnwindEvents(l);
            |evs| >= 2 && evs[|evs| - 2..] == [SetTerminate, CloseSoundcard] &&
            SetTerminate !in evs[..|evs| - 2] && CloseSoundcard !in evs[..|evs| - 2]
  {
    var u := UnwindEvents(l);
    UnwindEndsWithTerminateThenClose(l);
    JoinEnds(front, u);
  }

  lemma JoinEnds(front: seq<Event>, u: seq<Event>)
    requires forall e | e in front :: !e.SetTerminate? && !e.CloseSoundcard?
    requires |u| >= 2 && u[|u| - 2..] == [SetTerminate, CloseSoundcard]
    requires SetTerminate !in u[..|u| - 2] && CloseSoundcard !in u[..|u| - 2]
    ensures var evs := front + u;
            |evs| >= 2 && evs[|evs| - 2..] == [SetTerminate, CloseSoundcard] &&
            SetTerminate !in evs[..|evs| - 2] && CloseSoundcard !in evs[..|evs| - 2]
  {
    var evs := front + u;
    assert evs[|evs| - 2..] == u[|u| - 2..];
    assert evs[..|evs| - 2] == front + u[..|u| - 2];
  }

  /** Calls that are not teardown calls give nothing back. */
  lemma ReleasedAfter(front: seq<Event>, u: seq<Event>)
    requires forall e | e in front :: e.IsStartupCall() || e.IsCycleCall() || e.IsWindowCall()
    ensures Released(front + u) == Released(u)
  {
    assert FbOutputStop !in front && CodecEngineStop !in front;
    assert FbOutputClose !in front && CodecEngineClose !in front;
  }

  /** Every run, however it ends, finishes by setting the terminate flag and
      then closing the sound card, and neither call is made earlier. */
  lemma RunEndsWithTerminateThenClose(env: ThreadEnv, n: nat, procFrames: nat, labels: LabelTable)
    requires FitsSource(n) && SuppliesTicks(env.ticks, n)
    ensures var evs := RunSpec(env, n, procFrames, labels).events;
            |evs| >= 2 && evs[|evs| - 2..] == [SetTerminate, CloseSoundcard] &&
            SetTerminate !in evs[..|evs| - 2] && CloseSoundcard !in evs[..|evs| - 2]
  {
    var evs := RunSpec(env, n, procFrames, labels).events;
    RunBeforeUnwind(env, n, procFrames, labels);
    var u := UnwindEvents(ExitLabel(env.start, labels));
    UnwindComesLast(evs[..|evs| - |u|], ExitLabel(env.start, labels));
  }

  /** A run gives back what it holds: everything once started, and exactly
      what was acquired before the failing step otherwise, except that with
      the source's jump table a failing fbOutputStart gives back only the
      open engine. */
  lemma RunReleasesWhatItHolds(env: ThreadEnv, n: nat, procFrames: nat, labels: LabelTable)
    requires FitsSource(n) && SuppliesTicks(env.ticks, n)
    ensures StartSpec(env.start).Started? ==> Released(RunSpec(env, n, procFrames, labels).events) == AllResources
    ensures StartSpec(env.start).Aborted? && (labels == Corrected || StartSpec(env.start).failed != StartFramebuffer) ==>
              Released(RunSpec(env, n, procFrames, labels).events) == Held(StartSpec(env.start).failed)
    ensures StartSpec(env.start).Aborted? && labels == AsWritten && StartSpec(env.start).failed == StartFramebuffer ==>
              Released(RunSpec(env, n, procFrames, labels).events) == {EngineOpen}
  {
    var evs := RunSpec(env, n, procFrames, labels).events;
    RunBeforeUnwind(env, n, procFrames, labels);
    var l := ExitLabel(env.start, labels);
    var u := UnwindEvents(l);
    ReleasedAfter(evs[..|evs| - |u|], u);
    ReleasedFromLabel(l);
    if StartSpec(env.start).Aborted? {
      UnwindReleasesExactlyHeld(StartSpec(env.start).failed);
    }
  }

  /** The source's run after a failing fbOutputStart: the five acquiring
      calls, then only the engine close, the terminate flag and the sound
      card close, so the framebuffer stays open and the engine started. */
  lemma RunAsWrittenLeaks(env: ThreadEnv, n: nat, procFrames: nat)
    requires FitsSource(n) && SuppliesTicks(env.ticks, n)
    requires StartSpec(env.start).Aborted? && StartSpec(env.start).failed == StartFramebuffer
    ensures RunSpec(env, n, procFrames, AsWritten).events ==
              AcquireCalls(env.start) + [CodecEngineClose, SetTerminate, CloseSoundcard]
    ensures Held(StartFramebuffer) - Released(RunSpec(env, n, procFrames, AsWritten).events) ==
              {FramebufferOpen, EngineStarted}
  {
    StartupFailsAtFirstFailingStep(env.start);
    assert FirstNonzeroAt(StartStatuses(env.start), 5);
    RunReleasesWhatItHolds(env, n, procFrames, AsWritten);
  }

  /** The sound card is set up exactly on the runs whose startup succeeds,
      and it is closed on every run, those that never set it up included. */
  lemma RunSoundcard(env: ThreadEnv, n: nat, procFrames: nat, labels: LabelTable)
    requires FitsSource(n) && SuppliesTicks(env.ticks, n)
    ensures SoundcardInit in RunSpec(env, n, procFrames, labels).events <==> StartSpec(env.start).Started?
    ensures CloseSoundcard in RunSpec(env, n, procFrames, labels).events
  {
    var evs := RunSpec(env, n, procFrames, labels).events;
    var s := StartSpec(env.start);
    StartupCallsOnly(env.start);
    var u := UnwindEvents(ExitLabel(env.start, labels));
    assert SoundcardInit !in u && CloseSoundcard in u;
    if s.Started? {
      var front := s.events + [SoundcardInit] + Loop(LoopState(procFrames, s.reference), env.ticks, n).events;
      assert evs == front + u;
      assert front[|s.events|] == SoundcardInit;
    } else {
      assert evs == s.events + u;
      assert SoundcardInit !in s.events;
    }
  }

  /** A run that ends with 0 makes exactly one report per pass. */
  lemma RunReportsOncePerPass(env: ThreadEnv, n: nat, procFrames: nat, labels: LabelTable)
    requires FitsSource(n) && SuppliesTicks(env.ticks, n)
    requires RunSpec(env, n, procFrames, labels).exitCode == 0
    ensures ReportCount(RunSpec(env, n, procFrames, labels).events) == FirstStop(env.ticks, 0)
  {
    StartupOutcome(env.start);
    StartupCallsOnly(env.start);
    var s := StartSpec(env.start);
    var st := LoopState(procFrames, s.reference);
    var loop := Loop(st, env.ticks, n);
    LoopReportsOncePerPass(st, env.ticks, n, 0, []);
    assert ReportCount([]) == 0;
    ReportCountNone(s.events + [SoundcardInit]);
    ReportCountNone(UnwindEvents(ExitFbStop));
    ReportCountAppend(s.events + [SoundcardInit], loop.events);
    ReportCountAppend(s.events + [SoundcardInit] + loop.events, UnwindEvents(ExitFbStop));
  }
}
