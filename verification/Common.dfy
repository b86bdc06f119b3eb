/** The record types the worker pipelines exchange with the codec engine,
    the framebuffer and the runtime hub (include/internal/common.h). */
module Common {

  /** C `unsigned int` / `uint32_t` on the target. */
  newtype U32 = x: int | 0 <= x < 0x1_0000_0000

  /** C `int`: 32-bit two's complement on the target. */
  newtype I32 = x: int | -0x8000_0000 <= x < 0x8000_0000

  /** Geometry and pixel format of a raw image buffer. The four sizes are
      `size_t` (nonnegative; their width is not modelled), the format is a
      32-bit tag (a V4L2 fourcc). */
  datatype ImageDescription = ImageDescription(
    width: nat,
    height: nat,
    lineLength: nat,
    imageSize: nat,
    format: U32)

  /** Tunable inputs of the localisation algorithm; all four are unsigned. */
  datatype TargetDetectParams = TargetDetectParams(
    volumeCoefficient: U32,
    micDistance: U32,
    windowSize: U32,
    numSamples: U32)

  /** One-shot command: a signed value, so negatives reach the dispatch too. */
  datatype TargetDetectCommand = TargetDetectCommand(cmd: I32)

  /** Result of the localisation branch: a signed angle, unsigned volumes. */
  datatype TargetLocation = TargetLocation(
    targetAngle: I32,
    targetLeftVolume: U32,
    targetRightVolume: U32)

  /** Step `k` is the first whose status is not 0: the step a chain of
      "call, return on failure" statements stops at. */
  predicate FirstNonzeroAt(statuses: seq<int>, k: nat)
  {
    k < |statuses| && statuses[k] != 0 && forall i | 0 <= i < k :: statuses[i] == 0
  }
}
