/** The two workers: `threadVideo` and `threadAudio` are the same pipeline
    with a different number of sound card reads per cycle. */
module Threads {
  import opened Cycle
  import opened Lifecycle
  import opened Pipeline

  /** `ncount` of the video worker: 4 reads, 8192 bytes per frame. */
  const VideoReadCount: nat := 4
  /** `ncount` of the audio worker: 32 reads, 65536 bytes per frame. */
  const AudioReadCount: nat := 32

  /** Both read counts fit the source frame, with room to spare. */
  lemma ReadCountsFit()
    ensures FitsSource(VideoReadCount) && VideoReadCount * BlockBytes == 8192
    ensures FitsSource(AudioReadCount) && AudioReadCount * BlockBytes == 65536
    ensures AudioReadCount * BlockBytes < FrameSourceSize
  {
  }

  /** The video worker's source frame: read `k / 2048` fills bytes below
      8192, every other byte of the 153600 is zero. */
  lemma VideoSourceLayout(blocks: seq<ReadOutcome>)
    requires |blocks| == VideoReadCount
    ensures |Source(blocks)| == FrameSourceSize
    ensures forall k | 0 <= k < 8192 :: Source(blocks)[k] == blocks[k / 2048].data[k % 2048]
    ensures forall k | 8192 <= k < FrameSourceSize :: Source(blocks)[k] == 0
  {
    SourceLayout(blocks, 0);
    forall k | 0 <= k < FrameSourceSize
      ensures k < 8192 ==> Source(blocks)[k] == blocks[k / 2048].data[k % 2048]
      ensures k >= 8192 ==> Source(blocks)[k] == 0
    {
      SourceLayout(blocks, k);
    }
  }

  /** The audio worker's source frame: read `k / 2048` fills bytes below
      65536, every other byte of the 153600 is zero. */
  lemma AudioSourceLayout(blocks: seq<ReadOutcome>)
    requires |blocks| == AudioReadCount
    ensures |Source(blocks)| == FrameSourceSize
    ensures forall k | 0 <= k < 65536 :: Source(blocks)[k] == blocks[k / 2048].data[k % 2048]
    ensures forall k | 65536 <= k < FrameSourceSize :: Source(blocks)[k] == 0
  {
    SourceLayout(blocks, 0);
    forall k | 0 <= k < FrameSourceSize
      ensures k < 65536 ==> Source(blocks)[k] == blocks[k / 2048].data[k % 2048]
      ensures k >= 65536 ==> Source(blocks)[k] == 0
    {
      SourceLayout(blocks, k);
    }
  }

  /** `threadVideo`: a fresh worker with four reads per cycle, run to its end. */
  method ThreadVideo(env: ThreadEnv) returns (exitCode: int, p: Pipeline)
    requires SuppliesTicks(env.ticks, VideoReadCount)
    ensures fresh(p) && p.readCount == VideoReadCount
    ensures var r := RunSpec(env, VideoReadCount, 0, AsWritten);
            exitCode == r.exitCode && p.procFrames == r.procFrames && p.events == r.events
  {
    p := new Pipeline(VideoReadCount);
    exitCode := p.ThreadMain(env);
  }

  /** `threadAudio`: a fresh worker with thirty-two reads per cycle, run to
      its end. */
  method ThreadAudio(env: ThreadEnv) returns (exitCode: int, p: Pipeline)
    requires SuppliesTicks(env.ticks, AudioReadCount)
    ensures fresh(p) && p.readCount == AudioReadCount
    ensures var r := RunSpec(env, AudioReadCount, 0, AsWritten);
            exitCode == r.exitCode && p.procFrames == r.procFrames && p.events == r.events
  {
    p := new Pipeline(AudioReadCount);
    exitCode := p.ThreadMain(env);
  }
}
