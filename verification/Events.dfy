/** The observable effects of a worker pipeline: the calls it makes into the
    sound card, the codec engine, the framebuffer and the runtime hub, in the
    order it makes them. Clock reads and the terminate poll are not logged. */
module Events {
  import opened Common

  /** One byte of a sample or image buffer (`char`). */
  newtype Byte = x: int | 0 <= x < 256

  datatype Event =
    // one cycle (threadVideoSelectLoop / threadAudioSelectLoop)
    | GetFrame
    | GetTargetDetectParams
    | FetchTargetDetectCommand
    | GetVideoOutParams
    | ReadI(block: nat)
    | PrepareAfterOverrun(block: nat)
    | TranscodeFrame(source: seq<Byte>, params: TargetDetectParams,
                     command: TargetDetectCommand, videoOutEnable: bool)
    | PutFrame
    | ReportTargetDetectParams(confirmed: TargetDetectParams)
    | ReportTargetLocation(location: TargetLocation)
      // the periodic window
    | ReportLoad(elapsedMs: int)
    | FpsReported(kfps: int)
      // startup
    | CodecEngineOpen
    | FbOutputOpen
    | FbOutputGetFormat
    | CodecEngineStart(srcDesc: ImageDescription, dstDesc: ImageDescription)
    | FbOutputStart
    | SoundcardInit
      // the unwind chain
    | FbOutputStop
    | CodecEngineStop
    | FbOutputClose
    | CodecEngineClose
    | SetTerminate
    | CloseSoundcard
  {
    /** A report back to the runtime hub. */
    predicate IsReport() {
      ReportTargetDetectParams? || ReportTargetLocation?
    }

    /** A call one cycle makes. */
    predicate IsCycleCall() {
      GetFrame? || GetTargetDetectParams? || FetchTargetDetectCommand? || GetVideoOutParams? ||
      ReadI? || PrepareAfterOverrun? || TranscodeFrame? || PutFrame? || IsReport()
    }

    /** A call the periodic window makes. */
    predicate IsWindowCall() {
      ReportLoad? || FpsReported?
    }

    /** A call made while starting up, the sound card setup included. */
    predicate IsStartupCall() {
      CodecEngineOpen? || FbOutputOpen? || FbOutputGetFormat? || CodecEngineStart? ||
      FbOutputStart? || SoundcardInit?
    }

    /** A call of the unwind chain: stopping or closing a device, setting
        the terminate flag, closing the sound card. */
    predicate IsTeardown() {
      FbOutputStop? || CodecEngineStop? || FbOutputClose? || CodecEngineClose? ||
      SetTerminate? || CloseSoundcard?
    }
  }

  /** The number of reports in a log. */
  function ReportCount(events: seq<Event>): nat
  {
    if events == [] then 0
    else ReportCount(events[..|events| - 1]) + (if events[|events| - 1].IsReport() then 1 else 0)
  }

  lemma {:induction false} ReportCountAppend(a: seq<Event>, b: seq<Event>)
    ensures ReportCount(a + b) == ReportCount(a) + ReportCount(b)
  {
    if b != [] {
      assert (a + b)[..|a + b| - 1] == a + b[..|b| - 1];
      ReportCountAppend(a, b[..|b| - 1]);
    } else {
      assert a + b == a;
    }
  }

  /** A log without reports counts none. */
  lemma {:induction false} ReportCountNone(events: seq<Event>)
    requires forall e | e in events :: !e.IsReport()
    ensures ReportCount(events) == 0
  {
    if events != [] {
      ReportCountNone(events[..|events| - 1]);
    }
  }
}
