/** One pass of the worker loop (`threadVideoSelectLoop`,
    `threadAudioSelectLoop`) as a function of the outcomes of the calls it
    makes. The two files differ only in the number of reads per cycle, which
    here is the length of the read-outcome sequence. */
module Cycle {
  import opened Common
  import opened Events
  import opened Soundcard

  /** Size of the source frame handed to the codec engine. */
  const FrameSourceSize: nat := 153600
  /** Frames requested from `snd_pcm_readi` per read. */
  const MaxFrames := 512
  const Channels := 2
  /** S16_LE: two bytes per sample. */
  const SampleBytes := 2
  /** Bytes one full read delivers: 512 frames x 2 channels x 2 bytes. */
  const BlockBytes: nat := MaxFrames * Channels * SampleBytes
  /** `-EPIPE`, the overrun ("broken pipe") result of a read. */
  const BrokenPipe := -32
  /** `EINVAL` on Linux. */
  const EInval := 22

  /** The contents of the 2048-byte read buffer `wav_data`. */
  type Block = s: seq<Byte> | |s| == BlockBytes witness seq(BlockBytes, _ => 0)

  /** One read attempt: what `snd_pcm_readi` returns, what `wav_data` holds
      afterwards, and what `snd_pcm_prepare` returns should recovery call it. */
  datatype ReadOutcome = ReadOutcome(frames: int, data: Block, prepare: int)

  /** Which of the runtime, codec engine and framebuffer pointers are non-null. */
  datatype Handles = Handles(runtime: bool, engine: bool, framebuffer: bool)
  {
    predicate AllPresent() { runtime && engine && framebuffer }
  }

  /** Outcomes of everything one cycle calls, in call order: a status of 0
      is success. `blocks` holds one outcome per read of the cycle. The
      transcode call is given a writable pointer to the command it was
      fetched into; `dispatched` is that command as the report switch reads
      it after the call, which equals `command` unless the engine rewrote it. */
  datatype CycleEnv = CycleEnv(
    getFrame: int,
    paramsStatus: int,
    params: TargetDetectParams,
    commandStatus: int,
    command: TargetDetectCommand,
    videoOutStatus: int,
    videoOutEnable: bool,
    blocks: seq<ReadOutcome>,
    transcodeStatus: int,
    location: TargetLocation,
    confirmed: TargetDetectParams,
    dispatched: TargetDetectCommand,
    putFrameStatus: int,
    reportStatus: int)

  /** `n` reads of `BlockBytes` fit into the source frame. */
  predicate FitsSource(n: nat)
  {
    n * BlockBytes <= FrameSourceSize
  }

  /** A status together with the calls made. */
  datatype Outcome = Outcome(status: int, events: seq<Event>)

  /** What one read contributes to the cycle's status: 0 when the cycle goes
      on (a full read, or an overrun whose prepare succeeded). */
  function ReadStatus(r: ReadOutcome): int
  {
    if r.frames == MaxFrames then 0
    else if r.frames == BrokenPipe then (if r.prepare < 0 then PrepareError else 0)
    else SndReadError
  }

  /** The calls read `i` makes: the read, and a prepare after an overrun. */
  function ReadEvents(r: ReadOutcome, i: nat): seq<Event>
  {
    if r.frames == BrokenPipe then [ReadI(i), PrepareAfterOverrun(i)] else [ReadI(i)]
  }

  /** Reads `k`, `k + 1`, ... in order, stopping at the first that fails. */
  function Fill(blocks: seq<ReadOutcome>, k: nat): Outcome
    decreases |blocks| - k
  {
    if k >= |blocks| then Outcome(0, [])
    else if ReadStatus(blocks[k]) != 0 then Outcome(ReadStatus(blocks[k]), ReadEvents(blocks[k], k))
    else
      var rest := Fill(blocks, k + 1);
      Outcome(rest.status, ReadEvents(blocks[k], k) + rest.events)
  }

  /** The calls of reads `0` to `i - 1`, all of which went on. */
  function FilledEvents(blocks: seq<ReadOutcome>, i: nat): seq<Event>
    requires i <= |blocks|
  {
    if i == 0 then [] else FilledEvents(blocks, i - 1) + ReadEvents(blocks[i - 1], i - 1)
  }

  /** Once reads `0` to `i - 1` have gone on, the read loop's outcome is
      their calls followed by the outcome of the reads from `i` on. */
  lemma {:induction false} FillAfterPrefix(blocks: seq<ReadOutcome>, i: nat)
    requires i <= |blocks|
    requires forall m | 0 <= m < i :: ReadStatus(blocks[m]) == 0
    ensures Fill(blocks, 0) == Outcome(Fill(blocks, i).status, FilledEvents(blocks, i) + Fill(blocks, i).events)
  {
    if i > 0 {
      FillAfterPrefix(blocks, i - 1);
      assert Fill(blocks, i - 1) == Outcome(Fill(blocks, i).status, ReadEvents(blocks[i - 1], i - 1) + Fill(blocks, i).events);
    }
  }

  /** The read buffers one after another. */
  function Concat(blocks: seq<ReadOutcome>): (s: seq<Byte>)
    ensures |s| == |blocks| * BlockBytes
  {
    if blocks == [] then [] else Concat(blocks[..|blocks| - 1]) + blocks[|blocks| - 1].data
  }

  function Zeros(k: nat): seq<Byte>
  {
    seq(k, _ => 0)
  }

  /** The source frame after a full read loop: the zeroed frame with the read
      buffers copied to its front. */
  function Source(blocks: seq<ReadOutcome>): seq<Byte>
    requires FitsSource(|blocks|)
  {
    Concat(blocks) + Zeros(FrameSourceSize - |blocks| * BlockBytes)
  }

  /** The report the command selects: confirmed parameters for 1, the
      target location for 0 and for every other value. The command is read
      after the transcode call. */
  function Report(env: CycleEnv): Event
  {
    if env.dispatched.cmd == 1 then ReportTargetDetectParams(env.confirmed)
    else ReportTargetLocation(env.location)
  }

  const Prelude: seq<Event> := [GetFrame, GetTargetDetectParams, FetchTargetDetectCommand, GetVideoOutParams]

  /** All four prelude calls succeed. */
  predicate PreludeOk(env: CycleEnv)
  {
    env.getFrame == 0 && env.paramsStatus == 0 && env.commandStatus == 0 && env.videoOutStatus == 0
  }

  /** The cycle gets as far as the transcode call. */
  predicate ReachesTranscode(h: Handles, env: CycleEnv)
  {
    h.AllPresent() && PreludeOk(env) && Fill(env.blocks, 0).status == 0
  }

  /** One cycle: its status and the calls it makes, in order. */
  function CycleSpec(h: Handles, env: CycleEnv): Outcome
    requires FitsSource(|env.blocks|)
  {
    if !h.AllPresent() then Outcome(EInval, [])
    else if env.getFrame != 0 then Outcome(env.getFrame, Prelude[..1])
    else if env.paramsStatus != 0 then Outcome(env.paramsStatus, Prelude[..2])
    else if env.commandStatus != 0 then Outcome(env.commandStatus, Prelude[..3])
    else if env.videoOutStatus != 0 then Outcome(env.videoOutStatus, Prelude)
    else
      var fill := Fill(env.blocks, 0);
      if fill.status != 0 then Outcome(fill.status, Prelude + fill.events)
      else
        var delivery := Delivery(env);
        Outcome(delivery.status, Prelude + fill.events + delivery.events)
  }

  /** The calls after the read loop: transcode the source frame, put the
      output frame, and make the report the command selects; stops at the
      first failure. */
  function Delivery(env: CycleEnv): Outcome
    requires FitsSource(|env.blocks|)
  {
    var transcode := TranscodeFrame(Source(env.blocks), env.params, env.command, env.videoOutEnable);
    if env.transcodeStatus != 0 then Outcome(env.transcodeStatus, [transcode])
    else if env.putFrameStatus != 0 then Outcome(env.putFrameStatus, [transcode, PutFrame])
    else Outcome(env.reportStatus, [transcode, PutFrame, Report(env)])
  }

  // ---------------------------------------------------------------------
  // The source frame

  /** A frame that holds the source bytes up to the end of the last block
      and zeros after it is the source frame. */
  lemma SourceFromParts(frame: seq<Byte>, blocks: seq<ReadOutcome>)
    requires FitsSource(|blocks|) && |frame| == FrameSourceSize
    requires forall k | 0 <= k < |blocks| * BlockBytes :: frame[k] == Source(blocks)[k]
    requires forall k | |blocks| * BlockBytes <= k < FrameSourceSize :: frame[k] == 0
    ensures frame == Source(blocks)
  {
    forall k | 0 <= k < FrameSourceSize
      ensures frame[k] == Source(blocks)[k]
    {
      SourceLayout(blocks, k);
    }
  }

  /** Byte `j` of read `i` sits at offset `i * BlockBytes + j`. */
  lemma {:induction false} ConcatBlockAt(blocks: seq<ReadOutcome>, i: nat, j: nat)
    requires i < |blocks| && j < BlockBytes
    ensures i * BlockBytes + j < |Concat(blocks)|
    ensures Concat(blocks)[i * BlockBytes + j] == blocks[i].data[j]
  {
    var last := |blocks| - 1;
    if i < last {
      ConcatBlockAt(blocks[..last], i, j);
      assert blocks[..last][i] == blocks[i];
    }
  }

  /** The source frame is FrameSourceSize bytes; block `i` holds read `i`'s
      buffer and everything after the last block is zero. */
  lemma SourceLayout(blocks: seq<ReadOutcome>, k: nat)
    requires FitsSource(|blocks|)
    requires k < FrameSourceSize
    ensures |Source(blocks)| == FrameSourceSize
    ensures k < |blocks| * BlockBytes ==> Source(blocks)[k] == blocks[k / BlockBytes].data[k % BlockBytes]
    ensures k >= |blocks| * BlockBytes ==> Source(blocks)[k] == 0
  {
    if k < |blocks| * BlockBytes {
      ConcatBlockAt(blocks, k / BlockBytes, k % BlockBytes);
    }
  }

  // ---------------------------------------------------------------------
  // The read loop

  /** The read loop completes exactly when every read is full or an overrun
      that prepare recovers. */
  lemma {:induction false} FillSucceedsIff(blocks: seq<ReadOutcome>, k: nat)
    ensures Fill(blocks, k).status == 0 <==> forall i | k <= i < |blocks| :: ReadStatus(blocks[i]) == 0
    decreases |blocks| - k
  {
    if k < |blocks| && ReadStatus(blocks[k]) == 0 {
      FillSucceedsIff(blocks, k + 1);
    }
  }

  /** A failing read ends the loop with its own code: PrepareError for an
      overrun whose prepare fails, SndReadError for any other short read;
      no later block is read. */
  lemma {:induction false} FillStopsAtFirstFailure(blocks: seq<ReadOutcome>, s: nat, k: nat)
    requires s <= k < |blocks|
    requires forall i | s <= i < k :: ReadStatus(blocks[i]) == 0
    requires ReadStatus(blocks[k]) != 0
    ensures Fill(blocks, s).status == ReadStatus(blocks[k])
    ensures blocks[k].frames == BrokenPipe ==> Fill(blocks, s).status == PrepareError
    ensures blocks[k].frames != BrokenPipe ==> Fill(blocks, s).status == SndReadError
    ensures forall m: nat | ReadI(m) in Fill(blocks, s).events :: s <= m <= k
    decreases k - s
  {
    if s < k {
      FillStopsAtFirstFailure(blocks, s + 1, k);
      var rest := Fill(blocks, s + 1).events;
      assert Fill(blocks, s).events == ReadEvents(blocks[s], s) + rest;
    }
  }

  /** After a completed read loop every block from `k` on has been read, no
      other index has, and prepare was called exactly for the blocks whose
      read overran. The order of the calls is the one `Fill` defines. */
  lemma {:induction false} FillReadsEveryBlock(blocks: seq<ReadOutcome>, k: nat)
    requires Fill(blocks, k).status == 0
    ensures forall i | k <= i < |blocks| :: ReadI(i) in Fill(blocks, k).events
    ensures forall i: nat :: PrepareAfterOverrun(i) in Fill(blocks, k).events <==>
                          k <= i < |blocks| && blocks[i].frames == BrokenPipe
    ensures forall m: nat | ReadI(m) in Fill(blocks, k).events :: k <= m < |blocks|
    decreases |blocks| - k
  {
    if k < |blocks| {
      FillReadsEveryBlock(blocks, k + 1);
      var head := ReadEvents(blocks[k], k);
      var rest := Fill(blocks, k + 1).events;
      assert Fill(blocks, k).events == head + rest;
      forall i: nat
        ensures PrepareAfterOverrun(i) in head + rest <==> k <= i < |blocks| && blocks[i].frames == BrokenPipe
      {
        assert PrepareAfterOverrun(i) in head <==> i == k && blocks[k].frames == BrokenPipe;
      }
    }
  }

  /** The read loop makes no report. */
  lemma {:induction false} FillMakesNoReport(blocks: seq<ReadOutcome>, k: nat)
    ensures ReportCount(Fill(blocks, k).events) == 0
    decreases |blocks| - k
  {
    if k < |blocks| {
      var head := ReadEvents(blocks[k], k);
      ReportCountNone(head);
      if ReadStatus(blocks[k]) == 0 {
        FillMakesNoReport(blocks, k + 1);
        ReportCountAppend(head, Fill(blocks, k + 1).events);
      }
    }
  }

  // ---------------------------------------------------------------------
  // The whole cycle

  /** A cycle succeeds exactly when every call in it succeeds. */
  lemma CycleSucceedsIff(h: Handles, env: CycleEnv)
    requires FitsSource(|env.blocks|)
    ensures CycleSpec(h, env).status == 0 <==>
              h.AllPresent() && PreludeOk(env) &&
              (forall i | 0 <= i < |env.blocks| :: ReadStatus(env.blocks[i]) == 0) &&
              env.transcodeStatus == 0 && env.putFrameStatus == 0 && env.reportStatus == 0
  {
    FillSucceedsIff(env.blocks, 0);
    if h.AllPresent() && PreludeOk(env) && Fill(env.blocks, 0).status != 0 {
      var k :| 0 <= k < |env.blocks| && ReadStatus(env.blocks[k]) != 0;
      assert ReadStatus(env.blocks[k]) in {PrepareError, SndReadError};
      assert exists i | 0 <= i < |env.blocks| :: ReadStatus(env.blocks[i]) != 0;
      var first := FirstBadRead(env.blocks);
      FillStopsAtFirstFailure(env.blocks, 0, first);
    }
  }

  /** The index of the first read whose status is not 0. */
  function FirstBadRead(blocks: seq<ReadOutcome>): (k: nat)
    requires exists i | 0 <= i < |blocks| :: ReadStatus(blocks[i]) != 0
    ensures k < |blocks| && ReadStatus(blocks[k]) != 0
    ensures forall i | 0 <= i < k :: ReadStatus(blocks[i]) == 0
  {
    if ReadStatus(blocks[0]) != 0 then 0
    else
      assert exists i | 0 <= i < |blocks[1..]| :: ReadStatus(blocks[1..][i]) != 0 by {
        var i :| 0 <= i < |blocks| && ReadStatus(blocks[i]) != 0;
        assert blocks[1..][i - 1] == blocks[i];
      }
      1 + FirstBadRead(blocks[1..])
  }

  /** No block is read unless the handles are present and the four prelude
      calls (frame slot, parameters, command, video flag) all succeeded. */
  lemma CycleReadsOnlyAfterPrelude(h: Handles, env: CycleEnv)
    requires FitsSource(|env.blocks|)
    ensures (exists e | e in CycleSpec(h, env).events :: e.ReadI?) ==> h.AllPresent() && PreludeOk(env)
  {
  }

  /** Once transcode and putFrame succeed exactly one report is made, of
      the kind the command selects (parameters for 1, location otherwise,
      negatives included); otherwise none is made. */
  lemma CycleReportsOnce(h: Handles, env: CycleEnv)
    requires FitsSource(|env.blocks|)
    ensures ReportCount(CycleSpec(h, env).events) ==
              if ReachesTranscode(h, env) && env.transcodeStatus == 0 && env.putFrameStatus == 0 then 1 else 0
    ensures ReportCount(CycleSpec(h, env).events) == 1 ==>
              var last := CycleSpec(h, env).events[|CycleSpec(h, env).events| - 1];
              (env.dispatched.cmd == 1 ==> last == ReportTargetDetectParams(env.confirmed)) &&
              (env.dispatched.cmd != 1 ==> last == ReportTargetLocation(env.location))
  {
    var evs := CycleSpec(h, env).events;
    assert ReportCount([]) == 0;
    assert ReportCount(Prelude[..1]) == 0;
    assert ReportCount(Prelude[..2]) == 0 by { assert Prelude[..2][..1] == Prelude[..1]; }
    assert ReportCount(Prelude[..3]) == 0 by { assert Prelude[..3][..2] == Prelude[..2]; }
    assert ReportCount(Prelude) == 0 by { assert Prelude[..3] == Prelude[..3]; }
    if h.AllPresent() && PreludeOk(env) {
      var fill := Fill(env.blocks, 0).events;
      FillMakesNoReport(env.blocks, 0);
      ReportCountAppend(Prelude, fill);
      if Fill(env.blocks, 0).status == 0 {
        var transcode := TranscodeFrame(Source(env.blocks), env.params, env.command, env.videoOutEnable);
        assert ReportCount([transcode]) == 0 by { assert [transcode][..0] == []; }
        assert ReportCount([transcode, PutFrame]) == 0 by { assert [transcode, PutFrame][..1] == [transcode]; }
        assert ReportCount([transcode, PutFrame, Report(env)]) == 1 by {
          assert [transcode, PutFrame, Report(env)][..2] == [transcode, PutFrame];
        }
        ReportCountAppend(Prelude + fill, [transcode]);
        ReportCountAppend(Prelude + fill, [transcode, PutFrame]);
        ReportCountAppend(Prelude + fill, [transcode, PutFrame, Report(env)]);
      }
    }
  }

  /** A cycle that reaches the transcode hands it the snapshot taken in the
      prelude and the assembled source frame. */
  lemma CycleTranscodesSnapshot(h: Handles, env: CycleEnv)
    requires FitsSource(|env.blocks|)
    ensures ReachesTranscode(h, env) <==>
              TranscodeFrame(Source(env.blocks), env.params, env.command, env.videoOutEnable) in CycleSpec(h, env).events
  {
    if h.AllPresent() && PreludeOk(env) && Fill(env.blocks, 0).status != 0 {
      FillDoesNotTranscode(env.blocks, 0);
      assert !(TranscodeFrame(Source(env.blocks), env.params, env.command, env.videoOutEnable) in Prelude);
    }
  }

  /** The read loop makes only read and prepare calls. */
  lemma {:induction false} FillDoesNotTranscode(blocks: seq<ReadOutcome>, k: nat)
    ensures forall e | e in Fill(blocks, k).events :: e.ReadI? || e.PrepareAfterOverrun?
    decreases |blocks| - k
  {
    if k < |blocks| && ReadStatus(blocks[k]) == 0 {
      FillDoesNotTranscode(blocks, k + 1);
    }
  }

  /** A cycle makes only cycle calls. */
  lemma CycleCallsOnly(h: Handles, env: CycleEnv)
    requires FitsSource(|env.blocks|)
    ensures forall e | e in CycleSpec(h, env).events :: e.IsCycleCall()
  {
    FillDoesNotTranscode(env.blocks, 0);
  }

  /** The statuses of the reads, in read order. */
  function ReadStatuses(blocks: seq<ReadOutcome>): (s: seq<int>)
    ensures |s| == |blocks|
    ensures forall i | 0 <= i < |blocks| :: s[i] == ReadStatus(blocks[i])
  {
    seq(|blocks|, i requires 0 <= i < |blocks| => ReadStatus(blocks[i]))
  }

  /** The statuses of a cycle's calls in the order the cycle makes them:
      the four prelude calls, each read, transcode, putFrame and the report. */
  function CycleStatuses(env: CycleEnv): (s: seq<int>)
    ensures |s| == |env.blocks| + 7
  {
    [env.getFrame, env.paramsStatus, env.commandStatus, env.videoOutStatus] +
    ReadStatuses(env.blocks) +
    [env.transcodeStatus, env.putFrameStatus, env.reportStatus]
  }

  /** A cycle with a missing handle returns EINVAL and calls nothing. With
      the handles present, a failing cycle returns the status of its first
      failing call; when that call is in the prelude, the calls made are the
      prelude up to and including it. */
  lemma CycleFailsAtFirstFailingCall(h: Handles, env: CycleEnv)
    requires FitsSource(|env.blocks|)
    ensures !h.AllPresent() ==> CycleSpec(h, env) == Outcome(EInval, [])
    ensures forall k: nat | h.AllPresent() && FirstNonzeroAt(CycleStatuses(env), k) ::
              CycleSpec(h, env).status == CycleStatuses(env)[k]
    ensures forall k: nat | h.AllPresent() && FirstNonzeroAt(CycleStatuses(env), k) && k < 4 ::
              CycleSpec(h, env).events == Prelude[..k + 1]
  {
    var s := CycleStatuses(env);
    var n := |env.blocks|;
    forall k: nat | h.AllPresent() && FirstNonzeroAt(s, k)
      ensures CycleSpec(h, env).status == s[k]
      ensures k < 4 ==> CycleSpec(h, env).events == Prelude[..k + 1]
    {
      assert s[0] == env.getFrame && s[1] == env.paramsStatus;
      assert s[2] == env.commandStatus && s[3] == env.videoOutStatus;
      if 4 <= k {
        assert PreludeOk(env) by {
          assert s[0] == 0 && s[1] == 0 && s[2] == 0 && s[3] == 0;
        }
        forall i | 0 <= i < k - 4 && i < n
          ensures ReadStatus(env.blocks[i]) == 0
        {
          assert s[4 + i] == ReadStatus(env.blocks[i]);
        }
        if k < 4 + n {
          assert s[k] == ReadStatus(env.blocks[k - 4]);
          FillStopsAtFirstFailure(env.blocks, 0, k - 4);
        } else {
          FillSucceedsIff(env.blocks, 0);
          assert s[n + 4] == env.transcodeStatus && s[n + 5] == env.putFrameStatus && s[n + 6] == env.reportStatus;
        }
      }
    }
  }
}
