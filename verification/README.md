# unpaper file layer: pixel-format policy, palette expansion, fail-fast loading and saving

A Dafny model of `file.c` of unpaper, the part that moves images between disk
and memory through libavformat/libavcodec:

- `loadImage` opens a file and decodes the first packet of its first stream.
  It keeps the five canonical pixel formats (GRAY8, Y400A, RGB24, MONOBLACK,
  MONOWHITE) as they are, expands PAL8 into RGB24, and rejects every other
  format.
- `saveImage` maps the desired format to a Netpbm encoder (PPM, PGM, PBM) and
  to the format actually encoded. It copies the frame into a new one only when
  the formats differ, and frees only that copy.
- `saveDebug` saves the image in its own format when the verbosity reaches the
  debug-save level.

Every library call is reduced to its outcome, recorded in a probe record
(`Loader.LoadProbe`, `Saver.SaveProbe`). `errOutput`, which ends the process,
becomes a returned error. The checks are also listed in source order and
compared against an independent first-failing-check definition
(`FailFast.FirstFailure`).

Modules:
- `Wrappers`: Option and Result.
- `Frames`: the pixel formats, bytes, 32-bit colours and the frame.
- `FailFast`: the reference definition of fail-fast error reporting.
- `Palette`: the PAL8 expansion. It has a functional definition, the nested
  loop over arrays, and the bounds and padding lemmas.
- `Loader`, `Saver`, `DebugSave`: the three entry points.

Behaviours of the code worth noting:
- PAL8 has no output encoder. The switch in `saveImage` names five formats, so
  saving as PAL8 leaves `output_codec` at -1. A PAL8 or other unmapped frame
  saved in its own format is not coerced and fails with "output codec not
  found". A frame of another format is first coerced, and then fails the same
  way once that coercion returns (`Saver.SaveTargetTable`, `Saver.Save`).
- A debug save does coerce. Asking for the image's own format still converts
  Y400A and MONOBLACK frames, because those are normalised to GRAY8 and
  MONOWHITE (`DebugSave.DebugSaveCoercion`).
- The decoder's `got_frame` flag is never inspected. No "complete frame" check
  exists.
- `loadImage` first checks the codec context allocation (file.c:38-39), before
  it opens the file. The model keeps that order.
- A failure ends the process without releasing the handles already opened. So
  there is no release on the failure path to model.

## Model

| member | source | states |
|---|---|---|
| FailFast.FirstFailure | file.c:38-112 | the reference for fail-fast reporting: None exactly when every check passes, otherwise the error of the first check that fails |
| Palette.ReadInBounds | file.c:102-105 | with linesize ≥ width and a plane of at least linesize·(height−1)+width bytes, every offset linesize·y+x read for a pixel is inside the plane |
| Palette.Colour | file.c:101-106 | the colour of pixel (x, y) is the palette entry named by the index byte at linesize·y+x, and that read is in bounds |
| Palette.Expand | file.c:99-108 | the expanded image has height rows of width colours, and entry [y][x] is palette[data0[linesize·y+x]] |
| Palette.ExpandPal8 | file.c:99-108 | the nested loop returns a height×width grid where every read of the index plane is in bounds and out[y][x] = palette[data0[linesize·y+x]]; a byte always indexes the 256-entry palette |
| Palette.PaddingIrrelevant | file.c:102-105 | two index planes that agree on the bytes of visible pixels expand to the same image, so row padding and trailing bytes never matter |
| Palette.OffsetUnique | file.c:104-105 | with columns below linesize, an offset linesize·y+x names exactly one (x, y), so a visible pixel never reads a padding byte |
| Palette.PaddingByteIrrelevant | file.c:102-105 | overwriting any padding byte of any row (column ≥ width) leaves the expanded image unchanged |
| Palette.CheckerboardExample | file.c:99-108 | a 2×2 plane with two padding bytes per row, indices [[0,1],[1,0]] and palette [white, black] expands to [[white, black], [black, white]] |
| Loader.Normalise | file.c:89-113 | the format switch succeeds exactly for the five canonical formats and PAL8. Canonical formats keep their format and planes. PAL8 becomes an RGB24 frame of the same size with palette colours. Anything else is UnsupportedPixelFormat. A normalised frame is never PAL8 |
| Loader.Load | file.c:38-113 | a loaded frame is in a canonical format and has the decoded frame's size |
| Loader.LoadReportsFirstFailure | file.c:38-113 | loading fails exactly when a check fails, with the error of the first failing check. The order is context allocation, open, stream count ≥ 1, video stream, context copy, decoder, codec open, packet read, packet on stream 0, decode, pixel format |
| Loader.WrongStreamKindFails | file.c:55-56 | once the context and the container are open and a stream exists, a non-video first stream fails with WrongStream and yields no frame |
| Loader.LoadedNeverPal8 | file.c:89-109 | a successfully loaded frame is never PAL8, and a PAL8 input loads as RGB24 |
| Saver.SaveTarget | file.c:153-167 | an encoder is chosen exactly for the five canonical formats, and then the encoded format is GRAY8, RGB24 or MONOWHITE. An unlisted format selects no encoder and is left unchanged. An already-encodable format maps to itself |
| Saver.SaveTargetTable | file.c:130-167 | RGB24 → (PPM, RGB24); GRAY8 and Y400A → (PGM, GRAY8); MONOBLACK and MONOWHITE → (PBM, MONOWHITE); PAL8 and every other format → no encoder (output_codec stays -1) |
| Saver.SaveTargetIdempotent | file.c:153-167 | normalising the normalised format changes nothing: same encoder, same format, for every input |
| Saver.OutputFrame | file.c:135-172 | a new frame, of the input's size and the normalised format, is made exactly when the input's format differs from the normalised format; otherwise the caller's frame is encoded |
| Saver.Freed | file.c:231-232 | the caller's frame is never freed; a transient frame is the only frame freed |
| Saver.Save | file.c:128-233 | a successful save used the mapped encoder and a stream of the input's size with the normalised format and a 1/1 time base. It encoded a transient frame exactly when coercion was needed; the frames freed are at most the encoded frame, some frame is freed exactly when coercion was needed, and the caller's frame is never freed. An unmapped format fails with CodecNotFound once the muxer and the context exist (and any coercion, which comes first, has returned) |
| Saver.SaveReportsFirstFailure | file.c:139-219 | saving fails exactly when a check fails, with the error of the first failing check. The order is image2 muxer, output context, encoder, stream, codec open, file open, header, encode |
| DebugSave.DebugSaves | file.c:238-243 | below the debug-save level there is no save; at or above it there is exactly one, with the given template and index and the image's own format |
| DebugSave.DebugSaveCoercion | file.c:238-243 | a debug save coerces exactly Y400A and MONOBLACK frames. GRAY8, RGB24 and MONOWHITE are encoded as they are. PAL8 and every other format are not coerced, and the save then fails with CodecNotFound (see `Saver.Save`) |
| DebugSave.LoadedFramesDebugSave | file.c:238-243 | every frame loadImage returns has an encoder for its own format, so its debug save never fails with CodecNotFound when the library provides the encoder |

## Left out

- The libavformat/libavcodec calls themselves are left out: opening, probing, reading, decoding, encoding, stream creation, header, packet and trailer writes. Each is a boolean in a probe record. The results of `avformat_find_stream_info`, `av_write_frame` and `av_write_trailer` are ignored by the code, so they are not checks.
- The save-then-load round trips (grey and RGB frames come back sample for sample) are left out. They depend on the PPM/PGM encoders and decoders, which are outside the file layer.
- Handle releases (file.c:115-117, 222-229) are left out. They are native resource management with no effect on the decisions modelled.
- `av_dump_format` at VERBOSE_MORE (file.c:49-50, 198-199) is left out. It is diagnostic output only.
- `initImage`, `setPixel` and `copyImageArea` are not part of this model. Palette entries stay opaque 32-bit colours. The destination is a width×height grid with no stride or byte packing. A transient save frame is known only by its size and format, because the conversion `copyImageArea` performs is opaque.
- `sprintf` into the 100-byte debug file name (file.c:240-241) is left out. A debug save is the triple (template, index, format).
- The snprintf of the output context's file name (file.c:151) is left out.
- The numeric value of VERBOSE_DEBUG_SAVE is left out. It lives in unpaper.h, which is not part of this model, so the threshold is a parameter.
- `errOutput` process termination is left out. It becomes a returned error, so a save failing after coercion reports the error without freeing the transient frame, as the terminating process never does.
- The unchecked `av_frame_alloc` results (file.c:35) are left out. The code never tests them.
- `initImage`, `setPixel`, `copyImageArea` and `av_frame_clone` (file.c:95, 99, 106, 170-171) are assumed to return normally. A failure inside them is not modelled.
- Palette.ExpandPal8: requires linesize ≥ width, a plane of at least linesize·(height−1)+width bytes and a 256-entry palette. The C code does not check these and relies on the decoder for them. A negative linesize is not modelled.
- Loader.Load: requires the PAL8 guarantee of the decoder (`Loader.WellFormedPal8`) for a PAL8 frame, which the C code relies on without checking.
