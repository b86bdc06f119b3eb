/** The periodic load/FPS window of the thread driver and `InputReportFPS`:
    C integer arithmetic on `long long`, with timestamps taken as inputs. */
module Periodic {
  import opened Events

  const MsPerSec := 1000
  const NsPerMs := 1000000
  const NsPerSec := 1000000000
  /** The window length, in the units the two places use it in. */
  const WindowMs := 10 * 1000
  const WindowSec := 10

  /** A `struct timespec` from the monotonic clock. */
  datatype TimeSpec = TimeSpec(sec: int, nsec: int)

  /** What one `clock_gettime` call returns: its status and the time read. */
  datatype ClockRead = ClockRead(status: int, time: TimeSpec)

  /** C's `/` on signed operands: the quotient truncated toward zero (Dafny's
      own `/` rounds down instead). */
  function TruncDiv(a: int, b: int): int
    requires b > 0
  {
    if a >= 0 then a / b else -((-a) / b)
  }

  /** The truncated quotient lies on the zero side of the exact one, less
      than one divisor away from it. */
  lemma TruncDivBounds(a: int, b: int)
    requires b > 0
    ensures var q := TruncDiv(a, b);
            (0 <= a ==> 0 <= q && q * b <= a < q * b + b) &&
            (a < 0 ==> q <= 0 && q * b - b < a <= q * b)
  {
    if a >= 0 {
      FloorDiv(a, b);
    } else {
      FloorDiv(-a, b);
    }
  }

  /** Dafny's `/` on a nonnegative dividend is the floor quotient. */
  lemma FloorDiv(a: int, b: int)
    requires a >= 0 && b > 0
    ensures 0 <= a / b && (a / b) * b <= a < (a / b) * b + b
  {
    assert a == (a / b) * b + a % b;
  }

  /** Milliseconds from `ref` to `now` as the driver computes them: whole
      seconds times 1000 plus the nanosecond difference divided (toward
      zero) by 10^6. */
  function ElapsedMs(now: TimeSpec, ref: TimeSpec): int
  {
    (now.sec - ref.sec) * MsPerSec + TruncDiv(now.nsec - ref.nsec, NsPerMs)
  }

  /** The computed figure is the true elapsed time in whole milliseconds, or
      one more when the nanosecond difference is negative and not a whole
      number of milliseconds (truncation toward zero rounds it up). */
  lemma ElapsedMsWithinOne(now: TimeSpec, ref: TimeSpec)
    ensures var trueNs := (now.sec - ref.sec) * NsPerSec + (now.nsec - ref.nsec);
            ElapsedMs(now, ref) - 1 <= trueNs / NsPerMs <= ElapsedMs(now, ref)
    ensures var trueNs := (now.sec - ref.sec) * NsPerSec + (now.nsec - ref.nsec);
            now.nsec >= ref.nsec ==> trueNs / NsPerMs == ElapsedMs(now, ref)
  {
    var s := now.sec - ref.sec;
    var d := now.nsec - ref.nsec;
    var trueNs := s * NsPerSec + d;
    assert trueNs == s * MsPerSec * NsPerMs + d;
    DivShift(d, s * MsPerSec);
  }

  /** Adding whole milliseconds shifts the floor quotient by as many. */
  lemma DivShift(d: int, m: int)
    ensures (m * NsPerMs + d) / NsPerMs == m + d / NsPerMs
  {
  }

  /** The reference time after a window fires: exactly ten seconds later,
      never resynchronised to the current time. */
  function Advance(ref: TimeSpec): TimeSpec
  {
    ref.(sec := ref.sec + WindowSec)
  }

  /** Thousandths of frames per second over `ms` milliseconds:
      `frames * 1000 * 1000 / ms`. */
  function Kfps(frames: nat, ms: int): nat
    requires ms > 0
  {
    (frames * 1000 * 1000) / ms
  }

  /** The figure is the floor of frames x 10^6 / ms: thousandths of frames
      per second, rounded down. */
  lemma KfpsBounds(frames: nat, ms: int)
    requires ms > 0
    ensures Kfps(frames, ms) * ms <= frames * 1000000 < (Kfps(frames, ms) + 1) * ms
  {
    FloorDiv(frames * 1000 * 1000, ms);
  }

  /** The two numbers the FPS line prints, `kfps / 1000` and `kfps % 1000`:
      the whole frames per second and the thousandths. */
  function FpsDigits(kfps: nat): (r: (nat, nat))
    ensures r.0 * 1000 + r.1 == kfps && r.1 < 1000
  {
    (kfps / 1000, kfps % 1000)
  }

  /** Counter and reference time of one pipeline. */
  datatype LoopState = LoopState(procFrames: nat, reference: TimeSpec)

  /** New state and calls made. */
  datatype Stepped = Stepped(state: LoopState, events: seq<Event>)

  /** The periodic check at the top of each loop pass: when at least ten
      seconds have elapsed since the reference, advance it by ten seconds,
      report the load, report the FPS figure and reset the counter. */
  function Window(st: LoopState, now: TimeSpec): Stepped
  {
    var ms := ElapsedMs(now, st.reference);
    if ms >= WindowMs then
      Stepped(LoopState(0, Advance(st.reference)), [ReportLoad(ms), FpsReported(Kfps(st.procFrames, ms))])
    else
      Stepped(st, [])
  }

  /** Advancing the reference lowers the elapsed figure by exactly one
      window, whatever the nanosecond parts are. */
  lemma AdvanceShiftsElapsed(now: TimeSpec, ref: TimeSpec)
    ensures ElapsedMs(now, Advance(ref)) == ElapsedMs(now, ref) - WindowMs
  {
  }

  /** Crossing one boundary fires the window once: right after it fires,
      every time less than two windows past the old reference is inside the
      new window. */
  lemma WindowFiresOncePerBoundary(st: LoopState, now: TimeSpec, later: TimeSpec)
    requires ElapsedMs(now, st.reference) >= WindowMs
    requires ElapsedMs(later, st.reference) < 2 * WindowMs
    ensures Window(st, now).state.procFrames == 0
    ensures Window(st, now).state.reference == Advance(st.reference)
    ensures Window(Window(st, now).state, later).events == []
  {
    AdvanceShiftsElapsed(later, st.reference);
  }

  /** After a stall of two windows or more the next pass fires again: the
      reference catches up one window per pass instead of jumping to now. */
  lemma WindowCatchesUp(st: LoopState, now: TimeSpec)
    requires ElapsedMs(now, st.reference) >= 2 * WindowMs
    ensures Window(Window(st, now).state, now).events != []
    ensures Window(Window(st, now).state, now).state.reference.sec == st.reference.sec + 2 * WindowSec
  {
    AdvanceShiftsElapsed(now, st.reference);
    AdvanceShiftsElapsed(now, Advance(st.reference));
  }
}
