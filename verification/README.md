# Worker pipelines of the V4L2/DSP/framebuffer bridge, in Dafny

This project models the two worker threads of the bridge: the video worker
(`threadVideo` in `src/thread_video.c`) and the audio worker (`threadAudio` in
`src/thread_audio.c`). Each worker does the following:

- It opens and starts the codec engine and the framebuffer output.
- It derives the source image description from the framebuffer's format.
- It sets up the ALSA capture device.
- It then loops until the runtime's terminate flag is set. Each pass:
  - reads the monotonic clock;
  - every ten seconds, reports the engine load and the frames per second;
  - runs one cycle (`threadVideoSelectLoop` / `threadAudioSelectLoop`).
- One cycle does the following:
  - It takes an output frame slot and snapshots the target-detection
    parameters, the pending command and the video-out flag.
  - It fills a zeroed 153600-byte source frame with consecutive 2048-byte
    sound card reads. An overrun (`-EPIPE`) is recovered with
    `snd_pcm_prepare`.
  - It transcodes the frame on the DSP and puts the output frame.
  - It reports either the confirmed parameters (command 1) or the target
    location (any other command).
- On any exit, the worker enters a chain of goto labels. From its entry
  label down, the chain stops and closes the engine and the framebuffer,
  sets the terminate flag and closes the sound card. Each startup failure
  jumps to a label chosen by the step that failed, and several steps share
  a label (`Lifecycle.LabelOnFailureAsWritten`). For every failure but one,
  that label gives back exactly what was acquired; the exception is under
  "## Findings".

The two source files differ only in the number of reads per cycle: 4 for
video and 32 for audio. The model therefore has one pipeline with a
`readCount`, instantiated twice in `Threads`.

## How the model is organised

- **Outcomes as inputs.** Every call into code outside the two files
  becomes an outcome the model receives: ALSA, the codec engine, the
  framebuffer, the runtime hub and the clock.
  - `ReadOutcome`: one read's result, its buffer, and the result of prepare.
  - `CycleEnv`: everything one cycle calls.
  - `Tick`: one loop pass.
  - `StartEnv` and `ThreadEnv`: startup and a whole run.
- **Observable behaviour** is the status a worker returns together with the
  ordered log of calls it makes (`Events.Event`). The log holds the exact
  source frame and snapshot handed to the transcoder, and the reports sent
  back to the hub.
- **Specification functions** describe the same behaviour as values:
  - `Cycle.CycleSpec`: one cycle.
  - `Periodic.Window`: the ten-second report window.
  - `Lifecycle.StartSpec` and `Lifecycle.UnwindEvents`: startup and the
    unwind chain.
  - `Pipeline.LoopSpec`, `Pipeline.ClockThen` and `Pipeline.CycleThen`: the
    loop, one function per step of its body.
  - `Pipeline.RunSpec`: a whole run, under a jump table. `AsWritten` is the
    source's table; `Corrected` sends a failing `fbOutputStart` to
    `exit_ce_stop`.
- **Imperative parts** are methods of the class `Pipeline.Pipeline`, whose
  fields are `proc_frames` and the call log. Each method is proved against
  the specification function for its part. The cycle's source frame is a
  real `array` that is zeroed and then filled by the nested copy loops.
- **Properties** are proved as lemmas about the specification functions, in
  `Cycle`, `Periodic`, `Lifecycle` and `Runs`.

## Model

| member | source | states |
|---|---|---|
| Soundcard.InitSoundcard | src/thread_video.c:47-205 | Returns NO_ERROR exactly when all ten ALSA setup steps succeed. Otherwise it returns the code of the first failing step, and no earlier step failed. `thread_audio.c` lines 47-136 run the same steps. |
| Cycle.FillAfterPrefix | src/thread_video.c:285-310 | Once the first i reads have gone on, the read loop's result is their calls followed by the result of the reads from i on. |
| Cycle.FillSucceedsIff | src/thread_video.c:285-310 | The read loop completes exactly when every read is full (512 frames) or is an overrun that prepare recovers. |
| Cycle.FillStopsAtFirstFailure | src/thread_video.c:287-304 | The first failing read ends the loop. Its status is PREPARE_ERROR for an overrun whose prepare fails and SNDREAD_ERROR for any other short read. No later block is read. |
| Cycle.FillReadsEveryBlock | src/thread_video.c:285-310 | A completed read loop has read every block, and no block outside the loop. Prepare was called exactly for the blocks whose read overran. |
| Cycle.FillMakesNoReport | src/thread_video.c:285-310 | The read loop sends no report to the hub. |
| Cycle.FillDoesNotTranscode | src/thread_video.c:285-310 | The read loop makes only read and prepare calls. |
| Cycle.FirstBadRead | src/thread_video.c:285-310 | When some read fails, this is the index of the first one: it fails and every earlier read went on. |
| Cycle.ConcatBlockAt | src/thread_video.c:306-309 | Byte j of read i lands at offset i * 2048 + j of the concatenated reads. |
| Cycle.SourceLayout | src/thread_video.c:281-309 | The source frame is 153600 bytes. Byte k below readCount * 2048 is byte k mod 2048 of read k / 2048, and every byte after that is zero (memset, then copy). |
| Cycle.SourceFromParts | src/thread_video.c:281-309 | A 153600-byte frame that agrees with the reads below the last block and is zero after it is the source frame. |
| Cycle.CycleFailsAtFirstFailingCall | src/thread_video.c:249-351 | A missing handle returns EINVAL with no call made. Otherwise a failing cycle returns the status of its first failing call, in the order frame slot, parameters, command, video flag, each read, transcode, putFrame, report. For a prelude failure, the calls made are the prelude up to that call. |
| Cycle.CycleSucceedsIff | src/thread_video.c:249-355 | A cycle returns 0 exactly when the handles are non-null and all its calls succeed: the four prelude calls, every read, transcode, putFrame and the report. |
| Cycle.CycleReadsOnlyAfterPrelude | src/thread_video.c:249-285 | No block is read unless the handles are present and the frame slot, parameters, command and video flag were all obtained. |
| Cycle.CycleReportsOnce | src/thread_video.c:327-351 | Exactly one report is made when transcode and putFrame succeed, and none otherwise. The report is the confirmed parameters for command 1 and the target location for every other command, negative commands included. The command is read as the switch sees it after the transcode call. |
| Cycle.CycleTranscodesSnapshot | src/thread_video.c:256-325 | A cycle reaches the transcode exactly when it hands the engine the assembled source frame together with the parameters, command and video flag taken in its prelude. |
| Cycle.CycleCallsOnly | src/thread_video.c:226-356 | A cycle makes only cycle calls: it never starts, stops or closes a device. |
| Periodic.TruncDivBounds | src/thread_video.c:448-449 | C's signed division truncates toward zero: the quotient lies on the zero side of the exact quotient, less than one divisor away. |
| Periodic.ElapsedMsWithinOne | src/thread_video.c:448-449 | The computed elapsed milliseconds equal the true elapsed whole milliseconds, or exceed them by one when the nanosecond difference is negative. |
| Periodic.KfpsBounds | src/thread_video.c:214-217 | The FPS figure is frames x 10^6 / ms rounded down: thousandths of frames per second. |
| Periodic.FpsDigits | src/thread_video.c:218 | The two printed numbers are the whole frames per second and the thousandths (below 1000) of the same figure. |
| Periodic.AdvanceShiftsElapsed | src/thread_video.c:448-453 | Moving the reference on by ten seconds lowers the elapsed figure by exactly 10000 ms. |
| Periodic.WindowFiresOncePerBoundary | src/thread_video.c:451-461 | A firing window resets the counter and advances the reference by ten seconds. It does not fire again before the next boundary. |
| Periodic.WindowCatchesUp | src/thread_video.c:451-461 | After a stall of two windows the next pass fires again. The reference catches up one window per pass instead of jumping to the current time. |
| Runs.WindowMakesNoReport | src/thread_video.c:451-461 | The window check sends no report to the hub. |
| Lifecycle.SourceFormatIsYuyv | src/thread_video.c:18 | ImageSourceFormat is the fourcc 'YUYV'. |
| Lifecycle.DeriveSource | src/thread_video.c:406-408 | The source description keeps the framebuffer's width, height and line length, with the YUYV format and the 153600-byte size. |
| Lifecycle.UnwindFallsThrough | src/thread_video.c:472-494 | Entering the chain at a label runs the tail of the whole chain from that label on. |
| Lifecycle.ReleasedFromLabel | src/thread_video.c:472-489 | What each label gives back: all four resources from exit_fb_stop, down to nothing from exit. |
| Lifecycle.UnwindAsWrittenLeaks | src/thread_video.c:417-422 | With the labels as written, a failing fbOutputStart leaves the framebuffer open and the engine started. |
| Lifecycle.UnwindReleasesExactlyHeld | src/thread_video.c:385-429 | With the corrected labels, every startup failure gives back exactly the resources acquired before it. |
| Lifecycle.UnwindEndsWithTerminateThenClose | src/thread_video.c:472-494 | Every label ends by setting the terminate flag and then closing the sound card, neither earlier. Leaving from exit_fb_stop gives back everything. |
| Lifecycle.StartupOutcome | src/thread_video.c:372-429 | Startup aborts, with a nonzero code, exactly when a step fails. On success the engine was started with the derived source description, and the reference time is the first clock reading. |
| Lifecycle.StartupCallsOnly | src/thread_video.c:385-422 | Startup makes only startup calls. |
| Lifecycle.StartupFailsAtFirstFailingStep | src/thread_video.c:372-429 | Startup aborts exactly when some step's status is nonzero. It aborts at the first such step, in the order handles, engine open, framebuffer open, getFormat, engine start, framebuffer start, clock. The code is that step's status and the calls made are the acquiring calls up to and including it. Otherwise all five acquiring calls are made. |
| Lifecycle.Startup | src/thread_video.c:372-429 | Startup as a sequence of calls. It aborts at the first failing step with that step's status (EINVAL for a missing handle), having made the acquiring calls up to it. When no step fails, it starts with the derived source description and the first clock reading. |
| Lifecycle.FailureLabel | src/thread_video.c:385-429 | The source's jump table and the corrected one send every failing step to the same label, except a failing fbOutputStart. |
| Pipeline.Pipeline.constructor | src/thread_video.c:44 | A fresh worker has proc_frames 0 and has made no calls. |
| Pipeline.Pipeline.ReportFps | src/thread_video.c:214-223 | Reports the FPS figure of the counter over ms milliseconds, resets the counter and returns 0. |
| Pipeline.Pipeline.PeriodicWindow | src/thread_video.c:448-461 | The counter, the reference and the calls after the window check are those of Window. |
| Pipeline.Pipeline.ReadBlock | src/thread_video.c:287-304 | One read: its status is ReadStatus (0, PREPARE_ERROR or SNDREAD_ERROR), and prepare is called only after an overrun. |
| Pipeline.Pipeline.CopyBlock | src/thread_video.c:306-309 | The copy loop puts read i's buffer at offset i * 2048. The bytes before it are kept and the zeros after it are untouched. |
| Pipeline.Pipeline.ReadSource | src/thread_video.c:281-310 | The memset and read loop return the read loop's status and calls. When the status is 0, the frame is exactly the source frame. |
| Pipeline.Pipeline.Deliver | src/thread_video.c:314-351 | Transcode, putFrame and the selected report, stopping at the first failure with its status. |
| Pipeline.Pipeline.SelectLoop | src/thread_video.c:226-356 | One cycle: its status and calls are CycleSpec's, and proc_frames grows by one exactly when the cycle returns 0. |
| Pipeline.Pipeline.Unwind | src/thread_video.c:472-492 | Entering the chain at a label makes that label's calls and those of every label below it. The counter is unchanged. |
| Pipeline.Pipeline.Pass | src/thread_video.c:439-468 | One loop pass (clock, window, cycle) is one step of LoopSpec. A failure ends the loop with its status; a success continues it from the next pass. |
| Pipeline.Pipeline.RunLoop | src/thread_video.c:436-469 | The while loop's exit code, final counter and calls are those of Loop. |
| Pipeline.Pipeline.ThreadMain | src/thread_video.c:359-495 | A whole thread's exit code, final counter and calls are those of RunSpec with the source's jump table, a failing fbOutputStart included. |
| Runs.LoopExitsCleanIff | src/thread_video.c:436-469 | The loop ends with 0 exactly when every pass before the terminate flag (or the end of the observed passes) reads the clock and completes its cycle. |
| Runs.LoopStopsAtFirstFailure | src/thread_video.c:441-468 | The first failing pass ends the loop with a nonzero status: the clock's when the clock fails, otherwise the cycle's. |
| Runs.LoopReportsOncePerPass | src/thread_video.c:436-469 | A loop that ends with 0 adds exactly one hub report per pass. |
| Runs.LoopReferenceDriftFree | src/thread_video.c:451-454 | The reference time keeps its nanoseconds and moves only by whole ten-second windows. |
| Runs.LoopCountsAtMostOnePerPass | src/thread_video.c:353 | proc_frames grows by at most one per pass. |
| Runs.LoopCallsOnly | src/thread_video.c:436-469 | The loop adds only cycle and window calls: no device is started, stopped or closed inside it. |
| Runs.RunBeforeUnwind | src/thread_video.c:359-494 | Under either jump table, a run's calls are its startup, sound card and loop calls, followed by the unwind chain from its exit label. |
| Runs.RunExitsCleanIff | src/thread_video.c:359-494 | A thread returns 0 exactly when startup succeeds and every pass before termination succeeds. An aborted startup returns that step's code. |
| Runs.RunEndsWithTerminateThenClose | src/thread_video.c:488-494 | Every run ends with the terminate flag set and then the sound card closed, and neither call appears earlier. |
| Runs.RunReleasesWhatItHolds | src/thread_video.c:385-489 | A started run gives back all four resources. An aborted run gives back exactly what it held when the step failed, except that with the source's table a failing fbOutputStart gives back only the open engine. |
| Runs.RunAsWrittenLeaks | src/thread_video.c:417-494 | With the source's table, a failing fbOutputStart is followed only by the engine close, the terminate flag and the sound card close. The framebuffer is left open and the engine started. |
| Runs.RunSoundcard | src/thread_video.c:431-433 | The sound card is set up exactly on runs whose startup succeeds. It is closed on every run (line 492). |
| Runs.RunReportsOncePerPass | src/thread_video.c:436-469 | A thread that returns 0 has made exactly one hub report per pass it ran. |
| Threads.ReadCountsFit | src/thread_video.c:239-240 | Four reads fill 8192 bytes and thirty-two fill 65536 (`thread_audio.c` line 171). Both fit in the 153600-byte source frame. |
| Threads.VideoSourceLayout | src/thread_video.c:281-309 | The video source frame holds the four reads in bytes 0-8191 and zeros in all the rest. |
| Threads.AudioSourceLayout | src/thread_audio.c:212-239 | The audio source frame holds the thirty-two reads in bytes 0-65535 and zeros in all the rest. |
| Threads.ThreadVideo | src/thread_video.c:359-495 | The video worker's exit code, frame counter and calls are those of RunSpec with four reads per cycle and the source's jump table. |
| Threads.ThreadAudio | src/thread_audio.c:289-425 | The audio worker's exit code, frame counter and calls are those of RunSpec with thirty-two reads per cycle and the source's jump table. |

## Left out

- ALSA, the codec engine, the framebuffer output, the runtime hub and the
  monotonic clock are outside the two files. Only the results of their
  calls are modelled, as inputs. Their internals, the DSP transcoding and
  the framebuffer contents are not part of this model.
- Soundcard.InitSoundcard: models the ten setup steps and their codes. It
  does not model these:
  - the `hw_params` structure that leaks when a later step fails;
  - the diagnostic printing in the video file;
  - the device name, rate and channel count.
- The return value of `init_soundcard` is ignored by both workers, so a run
  goes on when the sound card setup fails. The model keeps this behaviour.
- `close_soundcard` runs on every exit path, including those where
  `init_soundcard` never ran and the capture handle is not open. The model
  records the call but not what ALSA does with an unopened handle.
- The statuses of `codecEngineReportLoad`, `InputReportFPS` and the teardown
  calls only reach log lines, so they are not modelled.
- The text written to stdout and stderr is not modelled.
- The runtime's terminate flag is read at the top of each pass. The model
  observes a finite sequence of passes (`Tick`); when the sequence runs out,
  the flag is taken as set. Other threads that set the flag, the `volatile`
  counter and thread creation are not modelled.
- Runs.LoopCountsAtMostOnePerPass: states an upper bound on proc_frames,
  not its exact value, because a window in the middle of the loop resets it.
- Runs.LoopCallsOnly: states which kinds of calls the loop makes. The order
  of these calls is given by LoopSpec itself.
- Runs.LoopReferenceDriftFree: states that the reference moves by a whole
  number of windows, not how many.
- Pipeline.Pipeline.ReadSource: states the frame's contents only when the
  read loop completes. After a failing read the cycle returns at once, and
  the partly filled frame is never used.
- `proc_frames * 1000 * 1000` is computed in `long long`. Its overflow,
  after about 9.2 x 10^12 frames in one window, is not modelled. Integers
  are otherwise unbounded, and `size_t` and `uint32_t` widths are not
  modelled.
- `runtimeGetVideoOutParams` writes the flag straight into the engine's
  `m_videoOutEnable` field. The model records the value as part of the
  transcode call instead of as a field of an engine object.
- `clock_gettime` reports failure by its return value (`-1`). The loop exits
  with that value and prints `errno`. The model takes the clock status as
  given.
- `codecEngineTranscodeFrame` receives a writable pointer to the command,
  and the report switch reads the command after that call. The engine's
  code is not part of this model, so whether it rewrites the command is
  unknown. The model therefore takes the command the switch reads
  (`dispatched`) as a separate input. The transcode call is logged with the
  command as fetched.
- Every cycle requires `readCount * 2048 <= 153600` (`FitsSource`). Both
  read counts meet it; a larger count would overflow `buffer1` in the
  source.
- The model does not cover the remote-control channel and the other modules
  that are only declared in the headers.

## Findings

| source | as written | input that shows it | evidently intended | confidence | as-written member | corrected member |
|---|---|---|---|---|---|---|
| src/thread_video.c:417-422 | A failing `fbOutputStart` jumps to `exit_ce_close`. That only closes the engine, so the framebuffer stays open and the engine stays started. The label `exit_ce_stop` is never used. | codecEngineOpen, fbOutputOpen, fbOutputGetFormat and codecEngineStart return 0, and fbOutputStart returns nonzero. | Jump to `exit_ce_stop`, which stops the engine and then closes the framebuffer and the engine. | not executed | Runs.RunAsWrittenLeaks | Lifecycle.UnwindReleasesExactlyHeld |
| src/thread_audio.c:347-352 | The same jump to `exit_ce_close` after a failing `fbOutputStart`. | The same startup outcomes. | Jump to `exit_ce_stop`. | not executed | Lifecycle.UnwindAsWrittenLeaks | Lifecycle.UnwindReleasesExactlyHeld |

The workers (`Pipeline.Pipeline.ThreadMain`, `Threads.ThreadVideo`,
`Threads.ThreadAudio`) follow the source's jump table,
`Lifecycle.LabelOnFailureAsWritten`. `Lifecycle.UnwindAsWrittenLeaks` shows
the leak at the level of the chain, and `Runs.RunAsWrittenLeaks` at the
level of a run. The corrected table, `Lifecycle.LabelOnFailure`, is the run
`Pipeline.RunSpec` with `Corrected`. `Lifecycle.UnwindReleasesExactlyHeld`
and `Runs.RunReleasesWhatItHolds` prove that it gives back exactly what each
failing step held.
