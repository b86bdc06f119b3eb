/** Sound card setup (`init_soundcard`) and the error codes the capture
    path returns. Every ALSA call is replaced by its return value. */
module Soundcard {

  const NoError := 0
  const OpenError := 1
  const MallocError := 2
  const AnyError := 3
  const AccessError := 4
  const FormatError := 5
  const RateError := 6
  const ChannelsError := 7
  const ParamsError := 8
  const PrepareError := 9
  const SndReadError := 12
  const StartError := 13

  /** The error code of each setup step, in the order the steps run:
      open, hw_params_malloc, hw_params_any, set_access, set_format,
      set_rate_near, set_channels, hw_params, prepare, start. */
  const SetupCodes: seq<int> := [OpenError, MallocError, AnyError, AccessError, FormatError,
                                 RateError, ChannelsError, ParamsError, PrepareError, StartError]

  /** Return values of the ten ALSA calls; a negative value is a failure. */
  datatype SetupResults = SetupResults(
    open: int,
    hwParamsMalloc: int,
    hwParamsAny: int,
    setAccess: int,
    setFormat: int,
    setRate: int,
    setChannels: int,
    hwParams: int,
    prepare: int,
    start: int)

  /** The step results in the order the steps run. */
  function StepResults(r: SetupResults): (s: seq<int>)
    ensures |s| == |SetupCodes|
  {
    [r.open, r.hwParamsMalloc, r.hwParamsAny, r.setAccess, r.setFormat,
     r.setRate, r.setChannels, r.hwParams, r.prepare, r.start]
  }

  /** Step k is the first step whose result is negative. */
  predicate FailsFirstAt(results: seq<int>, k: nat)
  {
    k < |results| && results[k] < 0 && forall i | 0 <= i < k :: results[i] >= 0
  }

  /** `init_soundcard`: runs the steps in order and returns the code of the
      first one that fails, NoError when all succeed. */
  method InitSoundcard(r: SetupResults) returns (code: int)
    ensures code == NoError <==> forall i | 0 <= i < |SetupCodes| :: StepResults(r)[i] >= 0
    ensures code != NoError ==>
              exists k: nat :: FailsFirstAt(StepResults(r), k) && code == SetupCodes[k]
  {
    var s := StepResults(r);
    if r.open < 0 { assert FailsFirstAt(s, 0); return OpenError; }
    if r.hwParamsMalloc < 0 { assert FailsFirstAt(s, 1); return MallocError; }
    if r.hwParamsAny < 0 { assert FailsFirstAt(s, 2); return AnyError; }
    if r.setAccess < 0 { assert FailsFirstAt(s, 3); return AccessError; }
    if r.setFormat < 0 { assert FailsFirstAt(s, 4); return FormatError; }
    if r.setRate < 0 { assert FailsFirstAt(s, 5); return RateError; }
    if r.setChannels < 0 { assert FailsFirstAt(s, 6); return ChannelsError; }
    if r.hwParams < 0 { assert FailsFirstAt(s, 7); return ParamsError; }
    if r.prepare < 0 { assert FailsFirstAt(s, 8); return PrepareError; }
    if r.start < 0 { assert FailsFirstAt(s, 9); return StartError; }
    return NoError;
  }
}
