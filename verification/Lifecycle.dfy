/** Startup and shutdown of a worker thread (`threadVideo`, `threadAudio`):
    the ordered acquisition of the codec engine and the framebuffer, the
    derivation of the source image description, and the goto-label unwind
    chain that decides what is stopped and closed on each exit path. */
module Lifecycle {
  import opened Common
  import opened Events
  import opened Cycle
  import opened Periodic

  /** `ImageSourceFormat`: the V4L2 fourcc of packed YUYV 4:2:2. */
  const ImageSourceFormat: U32 := 1448695129

  /** A V4L2 fourcc: four characters, the first in the lowest byte. */
  function FourCC(a: char, b: char, c: char, d: char): int
  {
    a as int + b as int * 0x100 + c as int * 0x1_0000 + d as int * 0x100_0000
  }

  lemma SourceFormatIsYuyv()
    ensures ImageSourceFormat as int == FourCC('Y', 'U', 'Y', 'V')
  {
  }

  /** The source description: the destination's, with the capture format and
      the fixed source frame size; width, height and line length are kept. */
  function DeriveSource(dst: ImageDescription): (src: ImageDescription)
    ensures src.width == dst.width && src.height == dst.height && src.lineLength == dst.lineLength
    ensures src.format == ImageSourceFormat && src.imageSize == FrameSourceSize
  {
    dst.(format := ImageSourceFormat, imageSize := FrameSourceSize)
  }

  /** The startup steps, in the order they run; each can fail. Resolving the
      handles covers the null runtime and the null engine/framebuffer lookups,
      which both end with EINVAL. */
  datatype StartStep = ResolveHandles | OpenEngine | OpenFramebuffer | GetFormat
                     | StartEngine | StartFramebuffer | FirstClock

  /** The labels of the unwind chain, top to bottom; entering at one runs it
      and every label below it. */
  datatype Label = ExitFbStop | ExitCeStop | ExitFbClose | ExitCeClose | Exit

  /** What a thread holds and must give back. */
  datatype Resource = EngineOpen | FramebufferOpen | EngineStarted | FramebufferStarted

  const AllResources: set<Resource> := {EngineOpen, FramebufferOpen, EngineStarted, FramebufferStarted}

  /** The whole chain, in the order its labels fall through. */
  const UnwindChain: seq<Event> :=
    [FbOutputStop, CodecEngineStop, FbOutputClose, CodecEngineClose, SetTerminate, CloseSoundcard]

  function LabelIndex(l: Label): nat
  {
    match l
    case ExitFbStop => 0
    case ExitCeStop => 1
    case ExitFbClose => 2
    case ExitCeClose => 3
    case Exit => 4
  }

  /** The calls made from a label to the end of the thread. */
  function UnwindEvents(l: Label): seq<Event>
  {
    match l
    case ExitFbStop => [FbOutputStop, CodecEngineStop, FbOutputClose, CodecEngineClose, SetTerminate, CloseSoundcard]
    case ExitCeStop => [CodecEngineStop, FbOutputClose, CodecEngineClose, SetTerminate, CloseSoundcard]
    case ExitFbClose => [FbOutputClose, CodecEngineClose, SetTerminate, CloseSoundcard]
    case ExitCeClose => [CodecEngineClose, SetTerminate, CloseSoundcard]
    case Exit => [SetTerminate, CloseSoundcard]
  }

  /** The labels fall through: entering at a label runs the tail of the
      chain from that label's position on. */
  lemma UnwindFallsThrough(l: Label)
    ensures UnwindEvents(l) == UnwindChain[LabelIndex(l)..]
  {
  }

  /** The resources a log of calls gives back. */
  function Released(events: seq<Event>): set<Resource>
  {
    (if FbOutputStop in events then {FramebufferStarted} else {}) +
    (if CodecEngineStop in events then {EngineStarted} else {}) +
    (if FbOutputClose in events then {FramebufferOpen} else {}) +
    (if CodecEngineClose in events then {EngineOpen} else {})
  }

  /** The resources held when step `s` fails: those its predecessors acquired. */
  function Held(s: StartStep): set<Resource>
  {
    match s
    case ResolveHandles => {}
    case OpenEngine => {}
    case OpenFramebuffer => {EngineOpen}
    case GetFormat => {EngineOpen, FramebufferOpen}
    case StartEngine => {EngineOpen, FramebufferOpen}
    case StartFramebuffer => {EngineOpen, FramebufferOpen, EngineStarted}
    case FirstClock => AllResources
  }

  /** The label each failure jumps to, as the source writes it. */
  function LabelOnFailureAsWritten(s: StartStep): Label
  {
    match s
    case ResolveHandles => Exit
    case OpenEngine => Exit
    case OpenFramebuffer => ExitCeClose
    case GetFormat => ExitFbClose
    case StartEngine => ExitFbClose
    case StartFramebuffer => ExitCeClose
    case FirstClock => ExitFbStop
  }

  /** As written, a failing fbOutputStart leaves the framebuffer open and the
      engine started: exit_ce_close only closes the engine. */
  lemma UnwindAsWrittenLeaks()
    ensures Held(StartFramebuffer) - Released(UnwindEvents(LabelOnFailureAsWritten(StartFramebuffer)))
            == {FramebufferOpen, EngineStarted}
  {
    ReleasedFromLabel(ExitCeClose);
  }

  /** The label each failure jumps to, with a failing fbOutputStart sent to
      exit_ce_stop (the only label no jump uses). */
  function LabelOnFailure(s: StartStep): Label
  {
    match s
    case ResolveHandles => Exit
    case OpenEngine => Exit
    case OpenFramebuffer => ExitCeClose
    case GetFormat => ExitFbClose
    case StartEngine => ExitFbClose
    case StartFramebuffer => ExitCeStop
    case FirstClock => ExitFbStop
  }

  /** Which jump table a run follows: the source's, or the corrected one. */
  datatype LabelTable = AsWritten | Corrected

  /** The label a failing step jumps to under table `t`. The two tables
      differ only for a failing fbOutputStart. */
  function FailureLabel(t: LabelTable, s: StartStep): (l: Label)
    ensures s != StartFramebuffer ==> l == LabelOnFailureAsWritten(s) == LabelOnFailure(s)
  {
    match t
    case AsWritten => LabelOnFailureAsWritten(s)
    case Corrected => LabelOnFailure(s)
  }

  /** What entering the chain at each label gives back. */
  lemma ReleasedFromLabel(l: Label)
    ensures Released(UnwindEvents(l)) ==
      match l
      case ExitFbStop => AllResources
      case ExitCeStop => {EngineOpen, FramebufferOpen, EngineStarted}
      case ExitFbClose => {EngineOpen, FramebufferOpen}
      case ExitCeClose => {EngineOpen}
      case Exit => {}
  {
  }

  /** Every failure gives back exactly what was acquired before it. */
  lemma UnwindReleasesExactlyHeld(s: StartStep)
    ensures Released(UnwindEvents(LabelOnFailure(s))) == Held(s)
  {
    ReleasedFromLabel(LabelOnFailure(s));
  }

  /** Every exit path ends by setting the terminate flag and then closing
      the sound card; exiting from the running loop gives back everything. */
  lemma UnwindEndsWithTerminateThenClose(l: Label)
    ensures |UnwindEvents(l)| >= 2
    ensures UnwindEvents(l)[|UnwindEvents(l)| - 2..] == [SetTerminate, CloseSoundcard]
    ensures SetTerminate !in UnwindEvents(l)[..|UnwindEvents(l)| - 2]
    ensures CloseSoundcard !in UnwindEvents(l)[..|UnwindEvents(l)| - 2]
    ensures l == ExitFbStop ==> Released(UnwindEvents(l)) == AllResources
  {
  }

  /** Outcomes of the startup calls, in call order. */
  datatype StartEnv = StartEnv(
    handles: Handles,
    engineOpen: int,
    framebufferOpen: int,
    getFormat: int,
    destination: ImageDescription,
    engineStart: int,
    framebufferStart: int,
    firstClock: ClockRead)

  /** How startup ends: a failure with its code and step, or a running
      thread with both descriptions and the reference time. */
  datatype StartOutcome =
    | Aborted(code: int, failed: StartStep, events: seq<Event>)
    | Started(source: ImageDescription, destination: ImageDescription, reference: TimeSpec, events: seq<Event>)

  /** The five acquiring calls of a startup that succeeds, in order. */
  function AcquireCalls(e: StartEnv): seq<Event>
  {
    [CodecEngineOpen, FbOutputOpen, FbOutputGetFormat,
     CodecEngineStart(DeriveSource(e.destination), e.destination), FbOutputStart]
  }

  /** Startup up to the loop, as a function of the call outcomes. */
  function StartSpec(e: StartEnv): StartOutcome
  {
    var src := DeriveSource(e.destination);
    var acquire := AcquireCalls(e);
    if !e.handles.AllPresent() then Aborted(EInval, ResolveHandles, [])
    else if e.engineOpen != 0 then Aborted(e.engineOpen, OpenEngine, acquire[..1])
    else if e.framebufferOpen != 0 then Aborted(e.framebufferOpen, OpenFramebuffer, acquire[..2])
    else if e.getFormat != 0 then Aborted(e.getFormat, GetFormat, acquire[..3])
    else if e.engineStart != 0 then Aborted(e.engineStart, StartEngine, acquire[..4])
    else if e.framebufferStart != 0 then Aborted(e.framebufferStart, StartFramebuffer, acquire)
    else if e.firstClock.status != 0 then Aborted(e.firstClock.status, FirstClock, acquire)
    else Started(src, e.destination, e.firstClock.time, acquire)
  }

  /** Startup fails with a nonzero code exactly when a step fails; once it
      succeeds the engine was started with the derived source description
      and the reference time is the first clock reading. */
  lemma StartupOutcome(e: StartEnv)
    ensures StartSpec(e).Aborted? <==>
              !e.handles.AllPresent() || e.engineOpen != 0 || e.framebufferOpen != 0 || e.getFormat != 0 ||
              e.engineStart != 0 || e.framebufferStart != 0 || e.firstClock.status != 0
    ensures StartSpec(e).Aborted? ==> StartSpec(e).code != 0
    ensures StartSpec(e).Started? ==>
              StartSpec(e).source == DeriveSource(e.destination) &&
              CodecEngineStart(StartSpec(e).source, e.destination) in StartSpec(e).events &&
              StartSpec(e).reference == e.firstClock.time
  {
  }

  /** Startup makes only startup calls. */
  lemma StartupCallsOnly(e: StartEnv)
    ensures forall ev | ev in StartSpec(e).events :: ev.IsStartupCall()
  {
  }

  /** The startup steps in the order they run. */
  const StartSteps: seq<StartStep> :=
    [ResolveHandles, OpenEngine, OpenFramebuffer, GetFormat, StartEngine, StartFramebuffer, FirstClock]

  /** The status of each startup step, in step order; a missing handle
      counts as EINVAL. */
  function StartStatuses(e: StartEnv): (s: seq<int>)
    ensures |s| == |StartSteps|
  {
    [if e.handles.AllPresent() then 0 else EInval, e.engineOpen, e.framebufferOpen,
     e.getFormat, e.engineStart, e.framebufferStart, e.firstClock.status]
  }

  /** The number of acquiring calls made up to and including step `k`:
      resolving the handles makes none, each of the next five makes one,
      and the clock makes none. */
  function CallsThrough(k: nat): nat
  {
    if k <= 5 then k else 5
  }

  /** Startup stops at the first step whose status is not 0. It aborts with
      that status, names that step, and has made the acquiring calls up to
      and including it. When no step fails, all five acquiring calls are
      made. */
  lemma StartupFailsAtFirstFailingStep(e: StartEnv)
    ensures StartSpec(e).Aborted? <==> exists k: nat :: FirstNonzeroAt(StartStatuses(e), k)
    ensures forall k: nat | FirstNonzeroAt(StartStatuses(e), k) ::
              StartSpec(e) == Aborted(StartStatuses(e)[k], StartSteps[k], AcquireCalls(e)[..CallsThrough(k)])
    ensures StartSpec(e).Started? <==> forall i | 0 <= i < |StartSteps| :: StartStatuses(e)[i] == 0
    ensures StartSpec(e).Started? ==> StartSpec(e).events == AcquireCalls(e)
  {
    var s := StartStatuses(e);
    var o := StartSpec(e);
    if o.Aborted? {
      var k := match o.failed
        case ResolveHandles => 0
        case OpenEngine => 1
        case OpenFramebuffer => 2
        case GetFormat => 3
        case StartEngine => 4
        case StartFramebuffer => 5
        case FirstClock => 6;
      assert FirstNonzeroAt(s, k);
    }
    forall k: nat | FirstNonzeroAt(s, k)
      ensures o == Aborted(s[k], StartSteps[k], AcquireCalls(e)[..CallsThrough(k)])
    {
      assert k == 6 ==> AcquireCalls(e)[..5] == AcquireCalls(e);
    }
  }

  /** Startup as the source runs it: each call in turn, stopping at the
      first failure with that call's status (EINVAL for a missing handle). */
  method Startup(e: StartEnv) returns (o: StartOutcome)
    ensures o == StartSpec(e)
    ensures forall k: nat | FirstNonzeroAt(StartStatuses(e), k) ::
              o == Aborted(StartStatuses(e)[k], StartSteps[k], AcquireCalls(e)[..CallsThrough(k)])
    ensures (forall i | 0 <= i < |StartSteps| :: StartStatuses(e)[i] == 0) ==>
              o == Started(DeriveSource(e.destination), e.destination, e.firstClock.time, AcquireCalls(e))
  {
    StartupFailsAtFirstFailingStep(e);
    var log: seq<Event> := [];
    if !e.handles.runtime || !e.handles.engine || !e.handles.framebuffer {
      return Aborted(EInval, ResolveHandles, log);
    }
    log := log + [CodecEngineOpen];
    if e.engineOpen != 0 {
      return Aborted(e.engineOpen, OpenEngine, log);
    }
    log := log + [FbOutputOpen];
    if e.framebufferOpen != 0 {
      return Aborted(e.framebufferOpen, OpenFramebuffer, log);
    }
    log := log + [FbOutputGetFormat];
    if e.getFormat != 0 {
      return Aborted(e.getFormat, GetFormat, log);
    }
    var dst := e.destination;
    var src := DeriveSource(dst);
    log := log + [CodecEngineStart(src, dst)];
    if e.engineStart != 0 {
      return Aborted(e.engineStart, StartEngine, log);
    }
    log := log + [FbOutputStart];
    if e.framebufferStart != 0 {
      return Aborted(e.framebufferStart, StartFramebuffer, log);
    }
    if e.firstClock.status != 0 {
      return Aborted(e.firstClock.status, FirstClock, log);
    }
    return Started(src, dst, e.firstClock.time, log);
  }
}
