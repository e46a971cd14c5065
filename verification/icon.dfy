/**
 * Loading the window icon into an SDL surface and releasing it again
 * (app/src/icon.c:161-247): the pixel format translation, the checks that
 * decide whether a decoded frame can back a surface, and the ownership of
 * the frame, the surface and the path string.
 */
module Icon {
  import opened Wrappers
  import opened Resources
  import AV
  import SDL
  import opened Decode
  import opened IconPath

  /** The twelve cases of to_sdl_pixel_format's switch, as (FFmpeg format, SDL format) pairs. */
  const PIXEL_FORMAT_TABLE: seq<(AV.PixelFormat, SDL.PixelFormat)> := [
    (AV.Rgb24, SDL.Rgb24),
    (AV.Bgr24, SDL.Bgr24),
    (AV.Argb, SDL.Argb32),
    (AV.Rgba, SDL.Rgba32),
    (AV.Abgr, SDL.Abgr32),
    (AV.Bgra, SDL.Bgra32),
    (AV.Rgb565Be, SDL.Rgb565),
    (AV.Rgb555Be, SDL.Rgb555),
    (AV.Bgr565Be, SDL.Bgr565),
    (AV.Bgr555Be, SDL.Bgr555),
    (AV.Rgb444Be, SDL.Rgb444),
    (AV.Bgr444Be, SDL.Bgr444)]

  /** Whether the table lists the FFmpeg format. */
  predicate Listed(fmt: AV.PixelFormat)
  {
    exists p :: p in PIXEL_FORMAT_TABLE && p.0 == fmt
  }

  /** to_sdl_pixel_format: UNKNOWN exactly for the formats outside the twelve. */
  function ToSdlPixelFormat(fmt: AV.PixelFormat): (r: SDL.PixelFormat)
    ensures r == SDL.Unknown <==> fmt.Other?
  {
    match fmt
    case Rgb24 => SDL.Rgb24
    case Bgr24 => SDL.Bgr24
    case Argb => SDL.Argb32
    case Rgba => SDL.Rgba32
    case Abgr => SDL.Abgr32
    case Bgra => SDL.Bgra32
    case Rgb565Be => SDL.Rgb565
    case Rgb555Be => SDL.Rgb555
    case Bgr565Be => SDL.Bgr565
    case Bgr555Be => SDL.Bgr555
    case Rgb444Be => SDL.Rgb444
    case Bgr444Be => SDL.Bgr444
    case Other(_) => SDL.Unknown
  }

  /**
   * to_sdl_pixel_format follows the table: a listed format becomes the SDL
   * format the table pairs it with, every other format becomes UNKNOWN.
   */
  lemma ToSdlPixelFormatFollowsTable(fmt: AV.PixelFormat)
    ensures Listed(fmt) ==> (fmt, ToSdlPixelFormat(fmt)) in PIXEL_FORMAT_TABLE && ToSdlPixelFormat(fmt) != SDL.Unknown
    ensures !Listed(fmt) ==> ToSdlPixelFormat(fmt) == SDL.Unknown
  {
    if !fmt.Other? {
      assert (fmt, ToSdlPixelFormat(fmt)) in PIXEL_FORMAT_TABLE;
    }
  }

  /**
   * The table is a one-to-one correspondence: no FFmpeg format is listed
   * twice, no two listed formats share an SDL format, and UNKNOWN is never
   * an answer for a listed format.
   */
  lemma PixelFormatTableOneToOne()
    ensures forall i, j :: 0 <= i < j < |PIXEL_FORMAT_TABLE| ==>
      PIXEL_FORMAT_TABLE[i].0 != PIXEL_FORMAT_TABLE[j].0 && PIXEL_FORMAT_TABLE[i].1 != PIXEL_FORMAT_TABLE[j].1
    ensures forall p :: p in PIXEL_FORMAT_TABLE ==> p.1 != SDL.Unknown
  {
  }

  /** to_sdl_pixel_format never maps two formats to the same SDL format other than UNKNOWN. */
  lemma ToSdlPixelFormatInjective(a: AV.PixelFormat, b: AV.PixelFormat)
    requires ToSdlPixelFormat(a) == ToSdlPixelFormat(b) != SDL.Unknown
    ensures a == b
  {
  }

  /** Why load_from_path gives up on a decoded frame. */
  datatype FormatError =
    | NoDescriptor        // av_pix_fmt_desc_get returned NULL
    | NotPackedRgb        // the RGB flag is clear or the PLANAR flag is set
    | UnsupportedFormat   // to_sdl_pixel_format answered UNKNOWN

  /**
   * The checks of load_from_path between decoding and creating the surface,
   * in their order: the format needs a descriptor, the descriptor must say
   * packed RGB, and the format must have an SDL counterpart.
   */
  function SurfaceFormat(fmt: AV.PixelFormat, desc: Option<AV.Descriptor>): (r: Result<SDL.PixelFormat, FormatError>)
    ensures r.Ok? <==> desc.Some? && desc.value.rgb && !desc.value.planar && !fmt.Other?
    ensures r.Ok? ==> r.value != SDL.Unknown
  {
    if desc.None? then Err(NoDescriptor)
    else if !(desc.value.rgb && !desc.value.planar) then Err(NotPackedRgb)
    else
      var format := ToSdlPixelFormat(fmt);
      if format == SDL.Unknown then Err(UnsupportedFormat) else Ok(format)
  }

  /**
   * The gate: a frame is accepted exactly when its format has a descriptor
   * that says packed RGB and the table lists the format, and then with the
   * SDL format the table gives; a refusal names the first check that failed.
   */
  lemma SurfaceFormatGate(fmt: AV.PixelFormat, desc: Option<AV.Descriptor>)
    ensures SurfaceFormat(fmt, desc).Ok? <==> desc.Some? && desc.value.rgb && !desc.value.planar && Listed(fmt)
    ensures SurfaceFormat(fmt, desc).Ok? ==> (fmt, SurfaceFormat(fmt, desc).value) in PIXEL_FORMAT_TABLE
    ensures SurfaceFormat(fmt, desc) == Err(NoDescriptor) <==> desc.None?
    ensures SurfaceFormat(fmt, desc) == Err(NotPackedRgb) <==>
      desc.Some? && !(desc.value.rgb && !desc.value.planar)
    ensures SurfaceFormat(fmt, desc) == Err(UnsupportedFormat) <==>
      desc.Some? && desc.value.rgb && !desc.value.planar && !Listed(fmt)
  {
    ToSdlPixelFormatFollowsTable(fmt);
  }

  /** A planar or non-RGB layout is refused whatever its format, listed or not. */
  lemma NonPackedRgbRefused(fmt: AV.PixelFormat, desc: AV.Descriptor)
    requires desc.planar || !desc.rgb
    ensures SurfaceFormat(fmt, Some(desc)) == Err(NotPackedRgb)
  {
  }

  /** Every listed format with a packed RGB descriptor is accepted as the SDL format the table pairs it with. */
  lemma ListedPackedRgbAccepted(fmt: AV.PixelFormat, sdl: SDL.PixelFormat, desc: AV.Descriptor)
    requires (fmt, sdl) in PIXEL_FORMAT_TABLE
    requires desc.rgb && !desc.planar
    ensures SurfaceFormat(fmt, Some(desc)) == Ok(sdl)
  {
    var i :| 0 <= i < |PIXEL_FORMAT_TABLE| && PIXEL_FORMAT_TABLE[i] == (fmt, sdl);
    if i < 6 {
      assert i == 0 || i == 1 || i == 2 || i == 3 || i == 4 || i == 5;
    } else {
      assert i == 6 || i == 7 || i == 8 || i == 9 || i == 10 || i == 11;
    }
  }

  /**
   * An SDL surface over the pixels of a decoded frame. SDL does not copy
   * the pixels: `pixels` is the frame that holds them, and `userdata`
   * is where load_from_path parks that frame so that it is freed with the
   * surface.
   */
  class Surface {
    const handle: Resource
    const pixels: Resource
    const width: int
    const height: int
    const bitsPerPixel: int
    const pitch: int
    const format: SDL.PixelFormat
    var userdata: Option<DecodedFrame>

    /** SDL_CreateRGBSurfaceWithFormatFrom: a surface with no userdata yet. */
    constructor (handle: Resource, pixels: Resource, width: int, height: int,
                 bitsPerPixel: int, pitch: int, format: SDL.PixelFormat)
      ensures this.handle == handle && this.pixels == pixels
      ensures this.width == width && this.height == height
      ensures this.bitsPerPixel == bitsPerPixel && this.pitch == pitch && this.format == format
      ensures userdata == None
    {
      this.handle := handle;
      this.pixels := pixels;
      this.width := width;
      this.height := height;
      this.bitsPerPixel := bitsPerPixel;
      this.pitch := pitch;
      this.format := format;
      userdata := None;
    }
  }

  /** The handle of the surface of a load whose decode starts at serial `base`. */
  function SurfaceHandle(base: nat): Resource
  {
    Resource(SurfaceObject, base + |LADDER|)
  }

  /** Whether load_from_path returns a surface. */
  predicate LoadSucceeds(run: DecodeRun, desc: Option<AV.Descriptor>, canCreateSurface: bool)
    ensures LoadSucceeds(run, desc, canCreateSurface) ==>
      run.Outcome() == STEP_COUNT && desc.Some? && desc.value.rgb && !desc.value.planar && !run.picture.format.Other?
  {
    && run.Outcome() == STEP_COUNT
    && SurfaceFormat(run.picture.format, desc).Ok?
    && canCreateSurface
  }

  /**
   * The events of load_from_path: those of the decode, then, for a decoded
   * frame, either the creation of the surface or the freeing of the frame.
   */
  function LoadTrace(run: DecodeRun, desc: Option<AV.Descriptor>, canCreateSurface: bool, base: nat): seq<Event>
  {
    var k := run.Outcome();
    DecodeTrace(k, base) +
      if k < STEP_COUNT then []
      else if LoadSucceeds(run, desc, canCreateSurface) then [Acquire(SurfaceHandle(base))]
      else [Release(FrameHandle(base))]
  }

  /**
   * load_from_path: decode the file, check the frame's format, and create
   * a surface over its pixels that keeps the frame as userdata. Once a
   * frame is decoded every failure goes to `error`, which frees it.
   */
  method LoadFromPath(ledger: Ledger, path: string, media: Media, canCreateSurface: bool) returns (surface: Surface?)
    requires ledger.Valid()
    modifies ledger
    ensures ledger.Valid()
    ensures var run := media.runOf(path);
      ledger.log == old(ledger.log) +
        LoadTrace(run, media.descriptorOf(run.picture.format), canCreateSurface, old(ledger.next))
    ensures var run := media.runOf(path);
      surface != null <==> LoadSucceeds(run, media.descriptorOf(run.picture.format), canCreateSurface)
    ensures var run := media.runOf(path); var desc := media.descriptorOf(run.picture.format);
      surface != null ==>
        && fresh(surface)
        && surface.handle == SurfaceHandle(old(ledger.next))
        && surface.pixels == FrameHandle(old(ledger.next))
        && surface.userdata == Some(DecodedFrame(FrameHandle(old(ledger.next)), run.picture))
        && surface.width == run.picture.width && surface.height == run.picture.height
        && surface.pitch == run.picture.linesize
        && surface.bitsPerPixel == desc.value.bitsPerPixel
        && Ok(surface.format) == SurfaceFormat(run.picture.format, desc)
    ensures ledger.live == old(ledger.live) +
      (if surface != null then {FrameHandle(old(ledger.next)), SurfaceHandle(old(ledger.next))} else {})
  {
    ghost var base := ledger.next;
    var decoded := DecodeImage(ledger, path, media);
    if decoded.None? {
      return null;
    }
    var frame := decoded.value;
    label Error: {
      var desc := media.descriptorOf(frame.picture.format);
      if desc.None? {
        break Error;
      }
      var isPackedRgb := desc.value.rgb && !desc.value.planar;
      if !isPackedRgb {
        break Error;
      }
      var format := ToSdlPixelFormat(frame.picture.format);
      if format == SDL.Unknown {
        break Error;
      }
      var bitsPerPixel := desc.value.bitsPerPixel;
      if !canCreateSurface {
        break Error;
      }
      var handle := ledger.Allocate(SurfaceObject);
      surface := new Surface(handle, frame.handle, frame.picture.width, frame.picture.height,
                             bitsPerPixel, frame.picture.linesize, format);
      surface.userdata := Some(frame);
      return;
    }
    ledger.Free(frame.handle);
    surface := null;
  }

  /** The handle of the path string an icon load starting at serial `base` allocates. */
  function PathHandle(base: nat): Resource
  {
    Resource(PathString, base)
  }

  /**
   * The events of scrcpy_icon_load: nothing without a path; otherwise the
   * path is allocated, the load runs and the path is freed.
   */
  function IconLoadTrace(env: Environment, media: Media, canCreateSurface: bool, base: nat): seq<Event>
  {
    match GetIconPath(env)
    case None => []
    case Some(path) =>
      var run := media.runOf(path);
      [Acquire(PathHandle(base))]
      + LoadTrace(run, media.descriptorOf(run.picture.format), canCreateSurface, base + 1)
      + [Release(PathHandle(base))]
  }

  /** Whether scrcpy_icon_load returns an icon. */
  predicate IconLoadSucceeds(env: Environment, media: Media, canCreateSurface: bool)
  {
    match GetIconPath(env)
    case None => false
    case Some(path) =>
      var run := media.runOf(path);
      LoadSucceeds(run, media.descriptorOf(run.picture.format), canCreateSurface)
  }

  /** With a path, the trace of scrcpy_icon_load is the load's trace bracketed by the path's allocation and release. */
  lemma IconLoadTraceSplits(env: Environment, media: Media, canCreateSurface: bool, base: nat)
    requires GetIconPath(env).Some?
    ensures var run := media.runOf(GetIconPath(env).value);
      && IconLoadTrace(env, media, canCreateSurface, base) ==
           [Acquire(PathHandle(base))]
           + LoadTrace(run, media.descriptorOf(run.picture.format), canCreateSurface, base + 1)
           + [Release(PathHandle(base))]
      && (IconLoadSucceeds(env, media, canCreateSurface) <==>
           LoadSucceeds(run, media.descriptorOf(run.picture.format), canCreateSurface))
  {
  }

  /**
   * scrcpy_icon_load: without a path there is nothing to decode; with one,
   * the path is freed once the load has run, whatever its outcome. The
   * path string is allocated by get_icon_path; its allocation is recorded
   * here, where the string is handed over.
   */
  method IconLoad(ledger: Ledger, env: Environment, media: Media, canCreateSurface: bool) returns (icon: Surface?)
    requires ledger.Valid()
    modifies ledger
    ensures ledger.Valid()
    ensures ledger.log == old(ledger.log) + IconLoadTrace(env, media, canCreateSurface, old(ledger.next))
    ensures icon != null <==> IconLoadSucceeds(env, media, canCreateSurface)
    ensures GetIconPath(env).None? ==> icon == null && ledger.log == old(ledger.log)
    ensures icon != null ==>
      && fresh(icon)
      && icon.handle == SurfaceHandle(old(ledger.next) + 1)
      && icon.userdata.Some? && icon.userdata.value.handle == FrameHandle(old(ledger.next) + 1)
    ensures icon != null ==>
      && GetIconPath(env).Some?
      && var run := media.runOf(GetIconPath(env).value);
         var desc := media.descriptorOf(run.picture.format);
         && icon.pixels == FrameHandle(old(ledger.next) + 1)
         && icon.userdata == Some(DecodedFrame(FrameHandle(old(ledger.next) + 1), run.picture))
         && icon.width == run.picture.width && icon.height == run.picture.height
         && icon.pitch == run.picture.linesize
         && icon.bitsPerPixel == desc.value.bitsPerPixel
         && Ok(icon.format) == SurfaceFormat(run.picture.format, desc)
    ensures ledger.live == old(ledger.live) +
      (if icon != null then {FrameHandle(old(ledger.next) + 1), SurfaceHandle(old(ledger.next) + 1)} else {})
  {
    var iconPath := GetIconPath(env);
    if iconPath.None? {
      return null;
    }
    ghost var base := ledger.next;
    ghost var log0 := ledger.log;
    ghost var run := media.runOf(iconPath.value);
    ghost var load := LoadTrace(run, media.descriptorOf(run.picture.format), canCreateSurface, base + 1);
    var pathHandle := ledger.Allocate(PathString);
    assert ledger.log == log0 + [Acquire(PathHandle(base))];
    icon := LoadFromPath(ledger, iconPath.value, media, canCreateSurface);
    assert ledger.log == log0 + [Acquire(PathHandle(base))] + load;
    AddRemove(old(ledger.live), pathHandle,
              if icon != null then {FrameHandle(base + 1), SurfaceHandle(base + 1)} else {});
    ledger.Free(pathHandle);
    assert ledger.log == log0 + [Acquire(PathHandle(base))] + load + [Release(PathHandle(base))];
    Regroup(log0, [Acquire(PathHandle(base))], load, [Release(PathHandle(base))]);
    IconLoadTraceSplits(env, media, canCreateSurface, base);
  }

  /**
   * scrcpy_icon_destroy: the surface must carry its frame (the C code
   * asserts it); the frame is freed first, then the surface.
   */
  method IconDestroy(ledger: Ledger, icon: Surface)
    requires ledger.Valid()
    requires icon.userdata.Some?
    requires icon.userdata.value.handle.kind == FrameObject && icon.handle.kind == SurfaceObject
    requires icon.userdata.value.handle in ledger.live && icon.handle in ledger.live
    modifies ledger
    ensures ledger.Valid()
    ensures ledger.log == old(ledger.log) + [Release(old(icon.userdata.value.handle)), Release(icon.handle)]
    ensures ledger.live == old(ledger.live) - {old(icon.userdata.value.handle), icon.handle}
  {
    var frame := icon.userdata.value;
    ledger.Free(frame.handle);
    ledger.Free(icon.handle);
  }

  /** Every handle of a load that starts at serial `base` has a serial in [base, base + 7). */
  lemma LoadTraceWithin(run: DecodeRun, desc: Option<AV.Descriptor>, canCreateSurface: bool, base: nat)
    ensures Within(LoadTrace(run, desc, canCreateSurface, base), base, base + |LADDER| + 1)
  {
    var k := run.Outcome();
    DecodeTraceWithin(k, base);
  }

  /**
   * A load that decodes a frame and then gives up frees the frame exactly
   * once, after the decode's own cleanup, and leaves the live resources as
   * it found them.
   */
  lemma LoadFailureFreesFrame(run: DecodeRun, desc: Option<AV.Descriptor>, canCreateSurface: bool,
                              base: nat, live: set<Resource>)
    requires run.Outcome() == STEP_COUNT && !LoadSucceeds(run, desc, canCreateSurface)
    requires forall r :: r in live ==> r.serial < base
    ensures Released(LoadTrace(run, desc, canCreateSurface, base)) == CompleteReleases(base) + [FrameHandle(base)]
    ensures FrameHandle(base) !in CompleteReleases(base)
    ensures Replay(live, LoadTrace(run, desc, canCreateSurface, base)) == Some(live)
  {
    var decode, free := DecodeTrace(STEP_COUNT, base), [Release(FrameHandle(base))];
    assert LoadTrace(run, desc, canCreateSurface, base) == decode + free;
    CompleteDecodeKeepsFrame(base, live);
    AcquiredReleasedAppend(decode, free);
    SingleEvent(live + {FrameHandle(base)}, free[0]);
    ReplayAppend(live, decode, free);
    assert FrameHandle(base) !in live;
    assert live + {FrameHandle(base)} - {FrameHandle(base)} == live;
  }

  /**
   * A successful load never frees the frame: the decode keeps it, the
   * surface is created over it, and both stay live.
   */
  lemma LoadSuccessKeepsFrame(run: DecodeRun, desc: Option<AV.Descriptor>, canCreateSurface: bool,
                              base: nat, live: set<Resource>)
    requires LoadSucceeds(run, desc, canCreateSurface)
    requires forall r :: r in live ==> r.serial < base
    ensures Acquired(LoadTrace(run, desc, canCreateSurface, base)) == LadderHandles(|LADDER|, base) + [SurfaceHandle(base)]
    ensures Released(LoadTrace(run, desc, canCreateSurface, base)) == CompleteReleases(base)
    ensures FrameHandle(base) !in Released(LoadTrace(run, desc, canCreateSurface, base))
    ensures Replay(live, LoadTrace(run, desc, canCreateSurface, base)) ==
            Some(live + {FrameHandle(base), SurfaceHandle(base)})
  {
    var decode, create := DecodeTrace(STEP_COUNT, base), [Acquire(SurfaceHandle(base))];
    assert LoadTrace(run, desc, canCreateSurface, base) == decode + create;
    CompleteDecodeKeepsFrame(base, live);
    AcquiredReleasedAppend(decode, create);
    SingleEvent(live + {FrameHandle(base)}, create[0]);
    ReplayAppend(live, decode, create);
    assert SurfaceHandle(base) !in live + {FrameHandle(base)};
    assert live + {FrameHandle(base)} + {SurfaceHandle(base)} == live + {FrameHandle(base), SurfaceHandle(base)};
  }

  /**
   * Whatever the outcome, a load leaves live exactly what it had before,
   * plus the frame and the surface when it returns a surface; no release
   * ever finds its resource already gone.
   */
  lemma LoadBalanced(run: DecodeRun, desc: Option<AV.Descriptor>, canCreateSurface: bool,
                     base: nat, live: set<Resource>)
    requires forall r :: r in live ==> r.serial < base
    ensures Replay(live, LoadTrace(run, desc, canCreateSurface, base)) ==
            Some(live + if LoadSucceeds(run, desc, canCreateSurface) then {FrameHandle(base), SurfaceHandle(base)} else {})
  {
    var k := run.Outcome();
    if k < STEP_COUNT {
      assert LoadTrace(run, desc, canCreateSurface, base) == DecodeTrace(k, base);
      FailedDecodeUnwinds(k, base, live);
    } else if LoadSucceeds(run, desc, canCreateSurface) {
      LoadSuccessKeepsFrame(run, desc, canCreateSurface, base, live);
    } else {
      LoadFailureFreesFrame(run, desc, canCreateSurface, base, live);
      assert live + {} == live;
    }
  }

  /** scrcpy_icon_load frees the path exactly once, as its last release. */
  lemma IconLoadFreesPathOnce(env: Environment, media: Media, canCreateSurface: bool, base: nat)
    requires GetIconPath(env).Some?
    ensures var released := Released(IconLoadTrace(env, media, canCreateSurface, base));
      && released != [] && released[|released| - 1] == PathHandle(base)
      && multiset(released)[PathHandle(base)] == 1
  {
    var path := GetIconPath(env).value;
    var run := media.runOf(path);
    var desc := media.descriptorOf(run.picture.format);
    IconLoadTraceSplits(env, media, canCreateSurface, base);
    LoadTraceWithin(run, desc, canCreateSurface, base + 1);
    BracketReleasedOnce(PathHandle(base), LoadTrace(run, desc, canCreateSurface, base + 1), base + 1, base + 1 + |LADDER| + 1);
  }

  /** A load bracketed by holding its path string adds only what the load adds. */
  lemma LoadWithPathBalanced(run: DecodeRun, desc: Option<AV.Descriptor>, canCreateSurface: bool,
                             base: nat, live: set<Resource>)
    requires forall r :: r in live ==> r.serial < base
    ensures Replay(live, [Acquire(PathHandle(base))] + LoadTrace(run, desc, canCreateSurface, base + 1)
                         + [Release(PathHandle(base))]) ==
            Some(live + if LoadSucceeds(run, desc, canCreateSurface)
                        then {FrameHandle(base + 1), SurfaceHandle(base + 1)} else {})
  {
    LoadBalanced(run, desc, canCreateSurface, base + 1, live + {PathHandle(base)});
    Bracket(live, PathHandle(base), LoadTrace(run, desc, canCreateSurface, base + 1),
            if LoadSucceeds(run, desc, canCreateSurface) then {FrameHandle(base + 1), SurfaceHandle(base + 1)} else {});
  }

  /**
   * Replaying scrcpy_icon_load leaves live exactly the icon's frame and
   * surface in addition when it returns an icon, and nothing new otherwise.
   */
  lemma IconLoadBalanced(env: Environment, media: Media, canCreateSurface: bool,
                         base: nat, live: set<Resource>)
    requires forall r :: r in live ==> r.serial < base
    ensures Replay(live, IconLoadTrace(env, media, canCreateSurface, base)) ==
            Some(live + if IconLoadSucceeds(env, media, canCreateSurface)
                        then {FrameHandle(base + 1), SurfaceHandle(base + 1)} else {})
  {
    match GetIconPath(env)
    case None =>
      assert live + {} == live;
    case Some(path) =>
      var run := media.runOf(path);
      IconLoadTraceSplits(env, media, canCreateSurface, base);
      LoadWithPathBalanced(run, media.descriptorOf(run.picture.format), canCreateSurface, base, live);
  }

  /**
   * Destroying a loaded icon balances the load: after the load and
   * scrcpy_icon_destroy, the live resources are those before the load.
   */
  lemma LoadThenDestroyBalanced(run: DecodeRun, desc: Option<AV.Descriptor>, canCreateSurface: bool,
                                base: nat, live: set<Resource>)
    requires LoadSucceeds(run, desc, canCreateSurface)
    requires forall r :: r in live ==> r.serial < base
    ensures Replay(live, LoadTrace(run, desc, canCreateSurface, base)
                         + [Release(FrameHandle(base)), Release(SurfaceHandle(base))]) == Some(live)
  {
    LoadSuccessKeepsFrame(run, desc, canCreateSurface, base, live);
    ReleasePair(live, LoadTrace(run, desc, canCreateSurface, base), FrameHandle(base), SurfaceHandle(base));
  }
}
