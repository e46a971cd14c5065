/**
 * Decoding the icon file into one frame (`decode_image`, app/src/icon.c:60-159).
 *
 * Each FFmpeg call is an opaque step that succeeds or fails; what matters
 * is which resources are held when a call fails, and that the cleanup
 * labels at the end of the function give back exactly those, once each,
 * in the reverse of the order they were acquired.
 */
module Decode {
  import opened Wrappers
  import opened Resources
  import AV

  /** The calls of decode_image that can fail, in the order it makes them. */
  datatype Step =
    | AllocFormatContext    // avformat_alloc_context
    | OpenInput             // avformat_open_input
    | FindStreamInfo        // avformat_find_stream_info
    | FindBestStream        // av_find_best_stream
    | FindDecoder           // avcodec_find_decoder
    | AllocCodecContext     // avcodec_alloc_context3
    | ParametersToContext   // avcodec_parameters_to_context
    | OpenCodec             // avcodec_open2
    | AllocFrame            // av_frame_alloc
    | AllocPacket           // av_packet_alloc
    | ReadFrame             // av_read_frame
    | SendPacket            // avcodec_send_packet
    | ReceiveFrame          // avcodec_receive_frame

  /** The number of fallible calls; an outcome of STEP_COUNT means none failed. */
  const STEP_COUNT := 13

  /** The position of a call in the order decode_image makes them. */
  function Index(step: Step): (i: nat)
    ensures i < STEP_COUNT
  {
    match step
    case AllocFormatContext => 0
    case OpenInput => 1
    case FindStreamInfo => 2
    case FindBestStream => 3
    case FindDecoder => 4
    case AllocCodecContext => 5
    case ParametersToContext => 6
    case OpenCodec => 7
    case AllocFrame => 8
    case AllocPacket => 9
    case ReadFrame => 10
    case SendPacket => 11
    case ReceiveFrame => 12
  }

  /** The resources of decode_image, in the order it acquires them. */
  const LADDER: seq<Kind> := [FormatContext, OpenedInput, CodecContext, OpenedCodec, FrameObject, PacketObject]

  /** The positions of the frame and the packet in LADDER. */
  const FRAME_RUNG := 4
  const PACKET_RUNG := 5

  /** How many resources of LADDER are held when the call at index k is made. */
  function HeldBefore(k: nat): (n: nat)
    requires k <= STEP_COUNT
    ensures n <= |LADDER|
  {
    if k == 0 then 0
    else if k == 1 then 1
    else if k <= 5 then 2
    else if k <= 7 then 3
    else if k == 8 then 4
    else if k == 9 then 5
    else 6
  }

  /** What decode_image produces: the picture's format, size and row stride. */
  datatype Picture = Picture(format: AV.PixelFormat, width: int, height: int, linesize: int)

  /**
   * How FFmpeg behaves on one file: the calls before the one at index
   * `failAt` succeed and that one fails (none fails when failAt is
   * STEP_COUNT or more); a complete decode yields `picture`.
   */
  datatype DecodeRun = DecodeRun(failAt: nat, picture: Picture)
  {
    predicate Succeeds(step: Step)
    {
      Index(step) < failAt
    }

    /** The index of the call that fails, or STEP_COUNT when the decode completes. */
    function Outcome(): (k: nat)
      ensures k <= STEP_COUNT
    {
      if failAt < STEP_COUNT then failAt else STEP_COUNT
    }
  }

  /** The libraries' behaviour on the files they may be asked to read. */
  datatype Media = Media(
    /** How decoding the file at a path goes. */
    runOf: string -> DecodeRun,
    /** av_pix_fmt_desc_get: None for a format without a descriptor. */
    descriptorOf: AV.PixelFormat -> Option<AV.Descriptor>)

  /** A decoded frame: the AVFrame handle and what it holds. */
  datatype DecodedFrame = DecodedFrame(handle: Resource, picture: Picture)

  /** The handle rung i of LADDER gets when the ledger's next serial is `base` at the start. */
  function Rung(i: nat, base: nat): Resource
    requires i < |LADDER|
  {
    Resource(LADDER[i], base + i)
  }

  function FrameHandle(base: nat): Resource
  {
    Rung(FRAME_RUNG, base)
  }

  /** The handles of the first n rungs, in acquisition order. */
  function LadderHandles(n: nat, base: nat): (hs: seq<Resource>)
    requires n <= |LADDER|
    ensures |hs| == n
    ensures forall i :: 0 <= i < n ==> hs[i] == Rung(i, base)
  {
    seq(n, i requires 0 <= i < n => Rung(i, base))
  }

  /**
   * The events of a decode that starts at serial `base` and whose call at
   * index k fails (k == STEP_COUNT: none fails). A failed decode acquires
   * what the calls before k acquire and releases all of it in reverse. A
   * complete one acquires the whole ladder and releases all of it in
   * reverse except the frame, which it returns.
   */
  function DecodeTrace(k: nat, base: nat): seq<Event>
    requires k <= STEP_COUNT
  {
    var held := LadderHandles(HeldBefore(k), base);
    if k < STEP_COUNT then
      Acquires(held) + Releases(Reverse(held))
    else
      Acquires(held) + Releases([held[PACKET_RUNG]] + Reverse(held[..FRAME_RUNG]))
  }

  /**
   * The events of lines 110-147, which run with the codec open, when the
   * call at index k fails: the frame and the packet are acquired as far as
   * their allocations succeed, and everything but a returned frame is freed
   * again, the packet first.
   */
  function FrameTrace(k: nat, base: nat): seq<Event>
    requires Index(AllocFrame) <= k <= STEP_COUNT
  {
    var frame, packet := Rung(4, base), Rung(5, base);
    if k == Index(AllocFrame) then []
    else if k == Index(AllocPacket) then [Acquire(frame), Release(frame)]
    else if k < STEP_COUNT then [Acquire(frame), Acquire(packet), Release(packet), Release(frame)]
    else [Acquire(frame), Acquire(packet), Release(packet)]
  }

  /**
   * The events of lines 94-152, from the allocation of the codec context
   * on: the context and the opened codec are acquired as far as their calls
   * succeed, the frame part runs once the codec is open, and close_codec and
   * free_codec_ctx release what was acquired.
   */
  function CodecTrace(k: nat, base: nat): seq<Event>
    requires Index(AllocCodecContext) <= k <= STEP_COUNT
  {
    var codecCtx, codec := Rung(2, base), Rung(3, base);
    if k == Index(AllocCodecContext) then []
    else if k < Index(AllocFrame) then [Acquire(codecCtx), Release(codecCtx)]
    else [Acquire(codecCtx), Acquire(codec)] + FrameTrace(k, base) + [Release(codec), Release(codecCtx)]
  }

  /**
   * The events of lines 73-152, which run with the input open: the stream
   * and its decoder are looked up, and the codec part runs once both are
   * found.
   */
  function StreamTrace(k: nat, base: nat): seq<Event>
    requires Index(FindStreamInfo) <= k <= STEP_COUNT
  {
    if k < Index(AllocCodecContext) then [] else CodecTrace(k, base)
  }

  /**
   * The events of decode_image read off its cleanup ladder: the format
   * context and the opened input are acquired as far as their calls
   * succeed, the stream part runs once the input is open, and close_input
   * and free_ctx release what was acquired.
   */
  function LadderTrace(k: nat, base: nat): seq<Event>
    requires k <= STEP_COUNT
  {
    var ctx, input := Rung(0, base), Rung(1, base);
    if k == 0 then []
    else if k == 1 then [Acquire(ctx), Release(ctx)]
    else [Acquire(ctx), Acquire(input)] + StreamTrace(k, base) + [Release(input), Release(ctx)]
  }

  /** The acquisitions and releases of the ladder's first n rungs, written out. */
  lemma LadderWrittenOut(base: nat)
    ensures Acquires(LadderHandles(1, base)) == [Acquire(Rung(0, base))]
    ensures Acquires(LadderHandles(2, base)) == [Acquire(Rung(0, base)), Acquire(Rung(1, base))]
    ensures Acquires(LadderHandles(3, base)) == [Acquire(Rung(0, base)), Acquire(Rung(1, base)), Acquire(Rung(2, base))]
    ensures Acquires(LadderHandles(4, base)) == [Acquire(Rung(0, base)), Acquire(Rung(1, base)), Acquire(Rung(2, base)), Acquire(Rung(3, base))]
    ensures Acquires(LadderHandles(5, base)) == [Acquire(Rung(0, base)), Acquire(Rung(1, base)), Acquire(Rung(2, base)), Acquire(Rung(3, base)), Acquire(Rung(4, base))]
    ensures Acquires(LadderHandles(6, base)) == [Acquire(Rung(0, base)), Acquire(Rung(1, base)), Acquire(Rung(2, base)), Acquire(Rung(3, base)), Acquire(Rung(4, base)), Acquire(Rung(5, base))]
    ensures Releases(Reverse(LadderHandles(1, base))) == [Release(Rung(0, base))]
    ensures Releases(Reverse(LadderHandles(2, base))) == [Release(Rung(1, base)), Release(Rung(0, base))]
    ensures Releases(Reverse(LadderHandles(3, base))) == [Release(Rung(2, base)), Release(Rung(1, base)), Release(Rung(0, base))]
    ensures Releases(Reverse(LadderHandles(4, base))) == [Release(Rung(3, base)), Release(Rung(2, base)), Release(Rung(1, base)), Release(Rung(0, base))]
    ensures Releases(Reverse(LadderHandles(5, base))) == [Release(Rung(4, base)), Release(Rung(3, base)), Release(Rung(2, base)), Release(Rung(1, base)), Release(Rung(0, base))]
    ensures Releases(Reverse(LadderHandles(6, base))) == [Release(Rung(5, base)), Release(Rung(4, base)), Release(Rung(3, base)), Release(Rung(2, base)), Release(Rung(1, base)), Release(Rung(0, base))]
    ensures var held := LadderHandles(6, base);
      Releases([held[PACKET_RUNG]] + Reverse(held[..FRAME_RUNG])) == [Release(Rung(5, base)), Release(Rung(3, base)), Release(Rung(2, base)), Release(Rung(1, base)), Release(Rung(0, base))]
  {
  }

  /**
   * The ladder releases in reverse acquisition order: what the cleanup
   * labels produce is DecodeTrace, whatever call fails.
   */
  lemma LadderTraceIsDecodeTrace(k: nat, base: nat)
    requires k <= STEP_COUNT
    ensures LadderTrace(k, base) == DecodeTrace(k, base)
  {
    if k < Index(AllocCodecContext) + 1 {
      LowerLadder(k, base);
    } else {
      UpperLadder(k, base);
    }
  }

  lemma LowerLadder(k: nat, base: nat)
    requires k <= Index(AllocCodecContext)
    ensures LadderTrace(k, base) == DecodeTrace(k, base)
  {
    LadderWrittenOut(base);
    if k == 1 {
      assert HeldBefore(k) == 1;
    } else if k > 1 {
      assert HeldBefore(k) == 2;
    }
  }

  lemma UpperLadder(k: nat, base: nat)
    requires Index(AllocCodecContext) < k <= STEP_COUNT
    ensures LadderTrace(k, base) == DecodeTrace(k, base)
  {
    if k <= Index(AllocPacket) {
      CodecLadder(k, base);
    } else {
      PacketLadder(k, base);
    }
  }

  lemma CodecLadder(k: nat, base: nat)
    requires Index(AllocCodecContext) < k <= Index(AllocPacket)
    ensures LadderTrace(k, base) == DecodeTrace(k, base)
  {
    LadderWrittenOut(base);
    if k <= 7 {
      assert HeldBefore(k) == 3;
    } else if k == 8 {
      assert HeldBefore(k) == 4;
    } else {
      assert HeldBefore(k) == 5;
    }
  }

  lemma PacketLadder(k: nat, base: nat)
    requires Index(AllocPacket) < k <= STEP_COUNT
    ensures LadderTrace(k, base) == DecodeTrace(k, base)
  {
    LadderWrittenOut(base);
    assert HeldBefore(k) == 6;
  }

  /**
   * Lines 110-147 of decode_image, which run with the codec open: allocate
   * the frame and the packet, read a packet, send it and receive the frame.
   * Every failure frees what this part allocated and goes on to close_codec.
   */
  method DecodeFrame(ledger: Ledger, run: DecodeRun, ghost base: nat) returns (result: Option<DecodedFrame>)
    requires ledger.Valid()
    requires Index(AllocFrame) <= run.Outcome() && ledger.next == base + FRAME_RUNG
    modifies ledger
    ensures ledger.Valid()
    ensures ledger.next == base + HeldBefore(run.Outcome())
    ensures ledger.log == old(ledger.log) + FrameTrace(run.Outcome(), base)
    ensures result.Some? <==> run.Outcome() == STEP_COUNT
    ensures result.Some? ==> result.value == DecodedFrame(FrameHandle(base), run.picture)
    ensures ledger.live == old(ledger.live) + (if result.Some? then {FrameHandle(base)} else {})
  {
    result := None;
    if !run.Succeeds(AllocFrame) {
      return;
    }
    var frame := ledger.Allocate(FrameObject);
    if !run.Succeeds(AllocPacket) {
      ledger.Free(frame);
      return;
    }
    var packet := ledger.Allocate(PacketObject);
    if !run.Succeeds(ReadFrame) {
      ledger.Free(packet);
      ledger.Free(frame);
      return;
    }
    if !run.Succeeds(SendPacket) {
      ledger.Free(packet);
      ledger.Free(frame);
      return;
    }
    if !run.Succeeds(ReceiveFrame) {
      ledger.Free(packet);
      ledger.Free(frame);
      return;
    }
    ledger.Free(packet);
    result := Some(DecodedFrame(frame, run.picture));
  }

  /**
   * Lines 94-152 of decode_image: allocate the codec context (a failure
   * goes to close_input), fill it and open the codec (a failure of either
   * goes to free_codec_ctx, so the codec is not closed), decode, then close
   * the codec at close_codec and free the context at free_codec_ctx.
   */
  method DecodeWithCodec(ledger: Ledger, run: DecodeRun, ghost base: nat) returns (result: Option<DecodedFrame>)
    requires ledger.Valid()
    requires Index(AllocCodecContext) <= run.Outcome() && ledger.next == base + 2
    modifies ledger
    ensures ledger.Valid()
    ensures ledger.next == base + HeldBefore(run.Outcome())
    ensures ledger.log == old(ledger.log) + CodecTrace(run.Outcome(), base)
    ensures result.Some? <==> run.Outcome() == STEP_COUNT
    ensures result.Some? ==> result.value == DecodedFrame(FrameHandle(base), run.picture)
    ensures ledger.live == old(ledger.live) + (if result.Some? then {FrameHandle(base)} else {})
  {
    result := None;
    if !run.Succeeds(AllocCodecContext) {
      return;
    }
    var codecCtx := ledger.Allocate(CodecContext);
    label FreeCodecCtx: {
      if !run.Succeeds(ParametersToContext) {
        break FreeCodecCtx;
      }
      if !run.Succeeds(OpenCodec) {
        break FreeCodecCtx;
      }
      var codec := ledger.Allocate(OpenedCodec);
      result := DecodeFrame(ledger, run, base);
      ledger.Free(codec);
    }
    ledger.Free(codecCtx);
  }

  /**
   * Lines 73-152 of decode_image, which run with the input open: find the
   * stream information, the best video stream and its decoder (a failure
   * of any goes to close_input), then the codec part.
   */
  method DecodeStream(ledger: Ledger, run: DecodeRun, ghost base: nat) returns (result: Option<DecodedFrame>)
    requires ledger.Valid()
    requires Index(FindStreamInfo) <= run.Outcome() && ledger.next == base + 2
    modifies ledger
    ensures ledger.Valid()
    ensures ledger.next == base + HeldBefore(run.Outcome())
    ensures ledger.log == old(ledger.log) + StreamTrace(run.Outcome(), base)
    ensures result.Some? <==> run.Outcome() == STEP_COUNT
    ensures result.Some? ==> result.value == DecodedFrame(FrameHandle(base), run.picture)
    ensures ledger.live == old(ledger.live) + (if result.Some? then {FrameHandle(base)} else {})
  {
    result := None;
    if !run.Succeeds(FindStreamInfo) {
      return;
    }
    if !run.Succeeds(FindBestStream) {
      return;
    }
    if !run.Succeeds(FindDecoder) {
      return;
    }
    result := DecodeWithCodec(ledger, run, base);
  }

  /**
   * decode_image. The cleanup labels are nested blocks, and `goto label` is
   * `break` out of the block that ends just before that label; the code
   * between the two labels' gotos is DecodeStream.
   */
  method DecodeImage(ledger: Ledger, path: string, media: Media) returns (result: Option<DecodedFrame>)
    requires ledger.Valid()
    modifies ledger
    ensures ledger.Valid()
    ensures ledger.log == old(ledger.log) + DecodeTrace(media.runOf(path).Outcome(), old(ledger.next))
    ensures ledger.next == old(ledger.next) + HeldBefore(media.runOf(path).Outcome())
    ensures result.Some? <==> media.runOf(path).Outcome() == STEP_COUNT
    ensures result.Some? ==> result.value == DecodedFrame(FrameHandle(old(ledger.next)), media.runOf(path).picture)
    ensures ledger.live == old(ledger.live) + (if result.Some? then {FrameHandle(old(ledger.next))} else {})
  {
    var run := media.runOf(path);
    ghost var k, base := run.Outcome(), ledger.next;
    result := None;
    if !run.Succeeds(AllocFormatContext) {
      LadderTraceIsDecodeTrace(k, base);
      return;
    }
    var ctx := ledger.Allocate(FormatContext);
    label FreeCtx: {
      if !run.Succeeds(OpenInput) {
        break FreeCtx;
      }
      var input := ledger.Allocate(OpenedInput);
      result := DecodeStream(ledger, run, base);
      ledger.Free(input);
    }
    ledger.Free(ctx);
    assert ledger.log == old(ledger.log) + LadderTrace(k, base);
    LadderTraceIsDecodeTrace(k, base);
  }

  /** The handles of distinct rungs differ, and none is older than the serial the decode starts at. */
  lemma LadderFresh(n: nat, base: nat, live: set<Resource>)
    requires n <= |LADDER|
    requires forall r :: r in live ==> r.serial < base
    ensures Distinct(LadderHandles(n, base))
    ensures forall i :: 0 <= i < n ==> LadderHandles(n, base)[i] !in live
  {
    var hs := LadderHandles(n, base);
    forall i, j | 0 <= i < j < n ensures hs[i] != hs[j] {
      assert hs[i].serial != hs[j].serial;
    }
  }

  /**
   * A decode that fails at the call with index k acquires exactly the
   * resources of the calls before k, releases exactly those in the reverse
   * order, each once, and leaves the live resources as it found them.
   */
  lemma {:induction false} FailedDecodeUnwinds(k: nat, base: nat, live: set<Resource>)
    requires k < STEP_COUNT
    requires forall r :: r in live ==> r.serial < base
    ensures Acquired(DecodeTrace(k, base)) == LadderHandles(HeldBefore(k), base)
    ensures Released(DecodeTrace(k, base)) == Reverse(Acquired(DecodeTrace(k, base)))
    ensures Replay(live, DecodeTrace(k, base)) == Some(live)
  {
    var hs := LadderHandles(HeldBefore(k), base);
    LadderFresh(HeldBefore(k), base, live);
    Unwind(live, hs);
    AcquiredReleasedAppend(Acquires(hs), Releases(Reverse(hs)));
    AcquiresFiltered(hs);
    ReleasesFiltered(Reverse(hs));
  }

  /**
   * When filling the codec context or opening the codec fails, the codec
   * is never closed: the cleanup starts at free_codec_ctx, which frees the
   * codec context, and no event of the decode concerns an opened codec.
   */
  lemma CodecNotClosedBeforeOpen(k: nat, base: nat)
    requires k == Index(ParametersToContext) || k == Index(OpenCodec)
    ensures forall i :: 0 <= i < |DecodeTrace(k, base)| ==> DecodeTrace(k, base)[i].res.kind != OpenedCodec
    ensures Released(DecodeTrace(k, base)) == [Rung(2, base), Rung(1, base), Rung(0, base)]
  {
    CodecFailureTrace(k, base);
    FailedDecodeUnwinds(k, base, {});
    assert Reverse(LadderHandles(3, base)) == [Rung(2, base), Rung(1, base), Rung(0, base)];
  }

  /** A failure at avcodec_parameters_to_context or avcodec_open2, written out. */
  lemma CodecFailureTrace(k: nat, base: nat)
    requires k == Index(ParametersToContext) || k == Index(OpenCodec)
    ensures HeldBefore(k) == 3
    ensures DecodeTrace(k, base) == [Acquire(Rung(0, base)), Acquire(Rung(1, base)), Acquire(Rung(2, base)),
                                     Release(Rung(2, base)), Release(Rung(1, base)), Release(Rung(0, base))]
  {
    LadderWrittenOut(base);
  }

  /** The releases of a complete decode, in the order the cleanup makes them. */
  function CompleteReleases(base: nat): seq<Resource>
  {
    [Rung(PACKET_RUNG, base), Rung(3, base), Rung(2, base), Rung(1, base), Rung(0, base)]
  }

  lemma CompleteTraceSplits(base: nat)
    ensures DecodeTrace(STEP_COUNT, base) == Acquires(LadderHandles(|LADDER|, base)) + Releases(CompleteReleases(base))
  {
    var held := LadderHandles(|LADDER|, base);
    assert [held[PACKET_RUNG]] + Reverse(held[..FRAME_RUNG]) == CompleteReleases(base);
  }

  /** The rungs a complete decode acquires are the ones it releases, and the frame. */
  lemma CompleteRungs(base: nat)
    ensures Elements(LadderHandles(|LADDER|, base)) == Elements(CompleteReleases(base)) + {FrameHandle(base)}
  {
    var hs := LadderHandles(|LADDER|, base);
    assert hs == [Rung(0, base), Rung(1, base), Rung(2, base), Rung(3, base), Rung(4, base), Rung(5, base)];
  }

  /** The cleanup of a complete decode finds each handle it releases live and leaves the frame. */
  lemma CompleteCleanupReplays(base: nat, live: set<Resource>)
    requires forall r :: r in live ==> r.serial < base
    ensures Replay(live + Elements(LadderHandles(|LADDER|, base)), Releases(CompleteReleases(base))) ==
            Some(live + {FrameHandle(base)})
  {
    var hs, down := LadderHandles(|LADDER|, base), CompleteReleases(base);
    CompleteRungs(base);
    CompleteReleasesDistinct(base);
    forall i | 0 <= i < |down| ensures down[i] in live + Elements(hs) {
      assert down[i] in Elements(down);
    }
    ReplayReleases(live + Elements(hs), down);
    CompleteLeavesFrame(base, live);
  }

  lemma CompleteReleasesDistinct(base: nat)
    ensures Distinct(CompleteReleases(base))
  {
    var r5, r3, r2, r1 := Rung(5, base), Rung(3, base), Rung(2, base), Rung(1, base);
    DistinctSnoc([r5], r3);
    DistinctSnoc([r5, r3], r2);
    DistinctSnoc([r5, r3, r2], r1);
    DistinctSnoc([r5, r3, r2, r1], Rung(0, base));
  }

  lemma CompleteLeavesFrame(base: nat, live: set<Resource>)
    requires forall r :: r in live ==> r.serial < base
    ensures live + Elements(LadderHandles(|LADDER|, base)) - Elements(CompleteReleases(base)) ==
            live + {FrameHandle(base)}
  {
    var down := CompleteReleases(base);
    CompleteRungs(base);
    assert FrameHandle(base) !in Elements(down);
    forall r | r in Elements(down) ensures r !in live {
      assert r.serial >= base;
    }
  }

  /** Replaying a complete decode leaves exactly the frame live in addition. */
  lemma CompleteDecodeReplays(base: nat, live: set<Resource>)
    requires forall r :: r in live ==> r.serial < base
    ensures Replay(live, DecodeTrace(STEP_COUNT, base)) == Some(live + {FrameHandle(base)})
  {
    var hs, down := LadderHandles(|LADDER|, base), CompleteReleases(base);
    CompleteTraceSplits(base);
    LadderFresh(|LADDER|, base, live);
    ReplayAppend(live, Acquires(hs), Releases(down));
    ReplayAcquires(live, hs);
    CompleteCleanupReplays(base, live);
  }

  /**
   * A complete decode acquires all six resources, releases the packet and
   * then the codec, the codec context, the input and the format context,
   * never the frame, and leaves the frame live as its only new resource.
   */
  lemma CompleteDecodeKeepsFrame(base: nat, live: set<Resource>)
    requires forall r :: r in live ==> r.serial < base
    ensures Acquired(DecodeTrace(STEP_COUNT, base)) == LadderHandles(|LADDER|, base)
    ensures Released(DecodeTrace(STEP_COUNT, base)) == CompleteReleases(base)
    ensures FrameHandle(base) !in Released(DecodeTrace(STEP_COUNT, base))
    ensures Replay(live, DecodeTrace(STEP_COUNT, base)) == Some(live + {FrameHandle(base)})
  {
    var hs, down := LadderHandles(|LADDER|, base), CompleteReleases(base);
    CompleteTraceSplits(base);
    AcquiredReleasedAppend(Acquires(hs), Releases(down));
    AcquiresFiltered(hs);
    ReleasesFiltered(down);
    CompleteDecodeReplays(base, live);
  }

  /** Every event of a decode concerns one of its six rungs: serials base to base + 5. */
  lemma DecodeTraceWithin(k: nat, base: nat)
    requires k <= STEP_COUNT
    ensures Within(DecodeTrace(k, base), base, base + |LADDER|)
  {
    var held := LadderHandles(HeldBefore(k), base);
    var down := if k < STEP_COUNT then Reverse(held) else CompleteReleases(base);
    if k == STEP_COUNT {
      CompleteTraceSplits(base);
    }
    assert DecodeTrace(k, base) == Acquires(held) + Releases(down);
    forall i | 0 <= i < |down| ensures base <= down[i].serial < base + |LADDER| {
    }
  }
}
