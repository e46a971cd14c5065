# scrcpy window icon loading, modelled in Dafny

This project models `app/src/icon.c` of scrcpy. That file loads the window
icon and frees it again:

- `get_icon_path` picks the icon file: the `SCRCPY_ICON_PATH` variable if it
  is set, otherwise the installed default or `icon.png` next to the
  executable of a portable build.
- `decode_image` decodes the file with FFmpeg into one `AVFrame`, and its
  goto cleanup ladder gives back everything else.
- `to_sdl_pixel_format` translates the frame's pixel format.
- `load_from_path` checks the frame's format and wraps its pixels in an SDL
  surface that keeps the frame as `userdata`.
- `scrcpy_icon_load` frees the path string.
- `scrcpy_icon_destroy` frees the frame and then the surface.

The model is mostly about ownership. Every object the code allocates or
opens is a handle from a `Ledger`. The ledger hands out fresh serials and
records every acquisition and release in a ghost log. `Free` accepts only a
handle that is live, so no release can be a double free. The methods that
model the C functions follow the source statement by statement:

- FFmpeg's fallible calls become `run.Succeeds(step)` tests;
- `goto label` becomes `break` out of a labelled block that ends at that label;
- each method states the whole log it appends.

The log is given by specification functions. Lemmas then prove what the
logs mean: what is acquired, what is released and in which order, and what
is live afterwards. "Live afterwards" is computed by replaying the log
(`Resources.Replay`).

Files:

- `wrappers.dfy`: the `Option` and `Result` types.
- `resources.dfy`: handles, the ledger, log replay and the generic lemmas
  about acquiring and unwinding.
- `pixel_formats.dfy`: the FFmpeg and SDL pixel formats, and the FFmpeg pixel
  format descriptor.
- `icon_path.dfy`: `get_icon_path`.
- `decode.dfy`: `decode_image`, split at its cleanup labels into
  `DecodeImage`, `DecodeStream`, `DecodeWithCodec` and `DecodeFrame`.
- `icon.dfy`: the format table, the format checks, the surface,
  `load_from_path`, `scrcpy_icon_load` and `scrcpy_icon_destroy`.

The icon path variable counts as set whenever it is present, even when it
is empty (`if (icon_path_env)` at line 26).

## Model

| member | source | states |
|---|---|---|
| IconPath.DefaultIconPath | app/src/icon.c:15-17 | The installed default path is the build prefix followed by `/share/icons/hicolor/256x256/apps/scrcpy.png`, and nothing else. |
| IconPath.GetIconPath | app/src/icon.c:19-58 | A set variable is used as is, or the result is None when its copy cannot be allocated. Without the variable, an installed build gives the default path (None when `strdup` fails). A portable build gives whatever `get_local_file_path("icon.png")` gives. |
| IconPath.VariableOverridesBuild | app/src/icon.c:26-39 | With the variable set, changing the build changes nothing, and any path returned is the variable's value. |
| IconPath.FallbackByBuild | app/src/icon.c:41-55 | With the variable unset, an installed build yields prefix + suffix, or None when the copy cannot be allocated. A portable build yields the local `icon.png` lookup, whatever the allocator would do, since that branch never calls `strdup`. |
| Decode.DecodeFrame | app/src/icon.c:110-147 | The frame and packet part. It appends exactly `FrameTrace` for the failing call. It returns the frame iff every call succeeds, and leaves only that frame newly live. |
| Decode.DecodeWithCodec | app/src/icon.c:94-152 | The codec part. It appends exactly `CodecTrace`. After a failure of `avcodec_parameters_to_context` or `avcodec_open2` it frees the codec context without closing a codec. It returns the frame iff nothing fails. |
| Decode.DecodeStream | app/src/icon.c:75-152 | The part that runs with the input open. It appends exactly `StreamTrace`. A failed stream or decoder lookup appends nothing. |
| Decode.DecodeImage | app/src/icon.c:60-159 | `decode_image` appends exactly `DecodeTrace` for the call that fails: the resources held at that point are acquired in order and released in reverse order. It returns a frame iff no call fails, and the frame is the fifth resource acquired, holding the decoded picture. Only the frame stays live. |
| Decode.LadderTraceIsDecodeTrace | app/src/icon.c:149-156 | What the fall-through cleanup labels release, whatever call fails, equals the reference trace (acquire in order, release in reverse order, keep a returned frame). |
| Decode.FailedDecodeUnwinds | app/src/icon.c:64-156 | A decode failing at call k acquires exactly the first `HeldBefore(k)` resources and releases exactly those, in reverse order. Replaying it finds each released resource live and ends with the live set it started from, so there is no leak and no double free. |
| Decode.CodecNotClosedBeforeOpen | app/src/icon.c:100-108 | When filling the codec context or opening the codec fails, no event concerns an opened codec. The releases are the codec context, then the input, then the format context. |
| Decode.CompleteDecodeKeepsFrame | app/src/icon.c:145-158 | A complete decode acquires all six resources and releases the packet, codec, codec context, input and format context in that order. It never releases the frame, and the frame is the only resource left live. |
| Decode.DecodeTraceWithin | app/src/icon.c:60-159 | Every event of a decode concerns one of the six serials it allocates. |
| Icon.ToSdlPixelFormat | app/src/icon.c:161-178 | `to_sdl_pixel_format` answers UNKNOWN exactly for the formats outside the twelve cases. Its correspondence with the table is carried by `ToSdlPixelFormatFollowsTable` and `ToSdlPixelFormatInjective`. |
| Icon.ToSdlPixelFormatFollowsTable | app/src/icon.c:161-178 | A listed FFmpeg format maps to the SDL format the table pairs it with, which is never UNKNOWN. Every other format maps to UNKNOWN. |
| Icon.PixelFormatTableOneToOne | app/src/icon.c:163-176 | The twelve cases list no FFmpeg format twice and no SDL format twice, and none of them answers UNKNOWN. |
| Icon.ToSdlPixelFormatInjective | app/src/icon.c:161-178 | Two formats with the same non-UNKNOWN SDL format are the same format. |
| Icon.SurfaceFormat | app/src/icon.c:187-205 | The checks of `load_from_path`, in their order. A frame passes iff it has a descriptor, RGB is set, PLANAR is clear and the format is one of the twelve, and a passing frame never gets UNKNOWN. The refusal reasons and the table's format are carried by `SurfaceFormatGate`. |
| Icon.SurfaceFormatGate | app/src/icon.c:187-205 | A frame is accepted iff its format has a descriptor, the RGB flag is set, the PLANAR flag is clear and the table lists the format. The accepted SDL format is the table's. Each refusal names the first check that failed, in the code's order. |
| Icon.NonPackedRgbRefused | app/src/icon.c:193-198 | A planar or non-RGB descriptor is refused whatever the format. |
| Icon.ListedPackedRgbAccepted | app/src/icon.c:193-205 | Every table pair with a packed RGB descriptor is accepted as the table's SDL format. |
| Icon.Surface.constructor | app/src/icon.c:208-213 | A surface takes the frame's width, height, bits per pixel, stride and pixels and the translated format, with no userdata yet. |
| Icon.LoadSucceeds | app/src/icon.c:182-218 | `load_from_path` returns a surface only after a complete decode, with a packed RGB descriptor and one of the twelve formats. `LoadFromPath` proves that it returns a surface exactly when this holds. |
| Icon.LoadFromPath | app/src/icon.c:180-227 | `load_from_path` appends the decode's events, then the surface creation on success or the frame's release on any later failure. It returns a surface iff the decode, the format checks and the creation all succeed. The fresh surface has the frame's size, stride and pixels, the descriptor's bits per pixel and the accepted format, and its userdata is the frame. The frame and the surface are the only resources left live. |
| Icon.LoadFailureFreesFrame | app/src/icon.c:182-226 | When a frame was decoded but loading fails, the frame is released exactly once, after the decode's own cleanup, and the live set ends as it started. |
| Icon.LoadSuccessKeepsFrame | app/src/icon.c:208-222 | A successful load never releases the frame. It acquires the six decode resources and the surface, and leaves exactly the frame and the surface live. |
| Icon.LoadBalanced | app/src/icon.c:180-227 | Whatever the outcome, every release finds its resource live, and a load adds to the live set exactly the frame and the surface when it returns a surface, and nothing otherwise. |
| Icon.IconLoad | app/src/icon.c:229-239 | Without a path it returns NULL and records nothing, so nothing is decoded. With a path it allocates the path, loads and frees the path. It returns an icon iff the load succeeds, and the icon is `load_from_path`'s surface unchanged: its pixels and userdata are the decoded frame, its size and pitch are the picture's, its bits per pixel are the descriptor's, and its format is what the format checks accept. |
| Icon.IconLoadFreesPathOnce | app/src/icon.c:229-239 | With a path, the path string is released exactly once in the whole run, and it is the last release. |
| Icon.IconLoadBalanced | app/src/icon.c:229-239 | After `scrcpy_icon_load` the live set has grown by exactly the icon's frame and surface when an icon is returned, and by nothing otherwise. |
| Icon.IconDestroy | app/src/icon.c:241-247 | It demands a surface whose userdata holds a live frame (the C `assert`). It releases that frame, then the surface, and nothing else. |
| Icon.LoadThenDestroyBalanced | app/src/icon.c:241-247 | Destroying a successfully loaded icon leaves the live set exactly as it was before the load: neither resource leaks, and neither is freed twice. |

## Left out

- Logging (`LOGE`, `LOGD`) is not modelled.
- The Windows branch of `get_icon_path` is not modelled separately. A failed
  `utf8_from_wide_char` is treated like a failed `strdup`, which is the
  `canAllocate` input.
- `get_local_file_path` is an input, `Environment.localFilePath`, because
  its lookup is platform I/O.
- FFmpeg and SDL are inputs, not code. `DecodeRun.failAt` says which
  fallible call fails first. `picture` is what a complete decode yields.
  `Media.descriptorOf` stands for `av_pix_fmt_desc_get`, and `canCreateSurface`
  says whether `SDL_CreateRGBSurfaceWithFormatFrom` succeeds. What the
  libraries do inside those calls is not modelled.
- `Decode.DecodeImage`: the format context and the opened input are two
  separate resources. In FFmpeg, a failed `avformat_open_input` and
  `avformat_close_input` both free the context themselves and null the
  pointer, which makes the later `avformat_free_context` a no-op. The model
  keeps the net effect (each object is given back once, in reverse order)
  but not which library call does the freeing.
- Descriptor flags are two booleans. `av_get_bits_per_pixel` is taken as
  the descriptor's `bitsPerPixel` field.
- Pixel memory is not modelled. The surface records the frame's handle as
  `pixels`, which stands for its pointer into `frame->data[0]`.
- Integers are unbounded. Widths, heights and strides pass through
  unchanged, and nothing in this code does arithmetic on them.
- `IconPath.GetIconPath` is a function. The allocation of the string it
  returns is recorded by `Icon.IconLoad`, at the point where the string is
  handed over.
- `Icon.IconDestroy` turns `assert(frame)` into a precondition. Builds with
  `NDEBUG`, where the assertion is compiled out, are not modelled.
- Which Step acquires which resource kind is stated only through the trace
  functions (`FrameTrace`, `CodecTrace`, `StreamTrace`, `LadderTrace`). No
  separate lemma relates each fallible call to the kind it allocates.
