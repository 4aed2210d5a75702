/** loadImage: open a file, decode the first packet of its first stream, and
    normalise the decoded frame to one of the five canonical formats. The
    library calls are abstracted to the outcomes recorded in a `LoadProbe`. */
module Loader {
  import opened Wrappers
  import opened Frames
  import opened FailFast
  import Palette

  /** The media type of a stream, as libavformat reports it. */
  datatype MediaType = Video | Audio | Data | Subtitle | Attachment | Unknown

  /** The frame the decoder produced: plane 0 with its stride and, for PAL8, the
      palette held in plane 1. */
  datatype Decoded = Decoded(width: nat, height: nat, format: PixFmt, data0: seq<byte>,
                             linesize: int, palette: seq<uint32>)

  /** What the decoder guarantees of a PAL8 frame: the index plane covers the
      image through its stride, and the palette has 256 entries. */
  predicate WellFormedPal8(d: Decoded) {
    Palette.PlaneCovers(|d.data0|, d.linesize, d.width, d.height) && |d.palette| == Palette.PaletteSize
  }

  /** The outcomes of the library calls loadImage makes, in the order it makes them. */
  datatype LoadProbe = LoadProbe(
    contextAllocated: bool,   // avcodec_alloc_context3 returned a context
    containerOpened: bool,    // avformat_open_input succeeded
    streamCount: nat,         // nb_streams of the opened container
    firstStreamType: MediaType,
    contextCopied: bool,      // avcodec_copy_context succeeded
    decoderFound: bool,       // avcodec_find_decoder found a decoder
    codecOpened: bool,        // avcodec_open2 succeeded
    packetRead: bool,         // av_read_frame succeeded
    packetStream: int,        // stream_index of the packet read
    decodeOk: bool,           // avcodec_decode_video2 succeeded
    frame: Decoded)

  /** Each errOutput call of loadImage. */
  datatype LoadError =
    | ContextAllocation
    | OpenFailed
    | MissingStreams
    | WrongStream
    | ContextCopy
    | UnsupportedFormat
    | CodecOpen
    | ReadFailed
    | InvalidStream
    | DecodeFailed
    | UnsupportedPixelFormat

  /** Whether loadImage accepts a decoded format at all. */
  predicate Loadable(f: PixFmt) {
    IsCanonical(f) || f == Pal8
  }

  /** The pixel-format switch: canonical formats are cloned unchanged, PAL8 is
      expanded into a new RGB24 frame, anything else is rejected. */
  function Normalise(d: Decoded): (r: Result<Frame, LoadError>)
    requires d.format == Pal8 ==> WellFormedPal8(d)
    ensures r.Success? <==> Loadable(d.format)
    ensures r.Failure? ==> r.error == UnsupportedPixelFormat
    ensures r.Success? ==> r.value.width == d.width && r.value.height == d.height
    ensures r.Success? ==> IsCanonical(r.value.format) && r.value.format != Pal8
    ensures r.Success? && IsCanonical(d.format) ==>
              r.value.format == d.format && r.value.pixels == Planes(d.data0, d.linesize)
    ensures r.Success? && d.format == Pal8 ==>
              r.value.format == Rgb24 && r.value.pixels.Colours?
              && |r.value.pixels.rows| == d.height
              && (forall y :: 0 <= y < d.height ==> |r.value.pixels.rows[y]| == d.width)
              && forall y, x :: 0 <= y < d.height && 0 <= x < d.width ==>
                   r.value.pixels.rows[y][x] == Palette.Colour(d.data0, d.linesize, d.width, d.height, d.palette, x, y)
  {
    match d.format
    case Gray8 | Y400A | Rgb24 | MonoBlack | MonoWhite =>
      Success(Frame(d.width, d.height, d.format, Planes(d.data0, d.linesize)))
    case Pal8 =>
      var rows := Palette.Expand(d.data0, d.linesize, d.width, d.height, d.palette);
      Success(Frame(d.width, d.height, Rgb24, Colours(rows)))
    case Other(_) =>
      Failure(UnsupportedPixelFormat)
  }

  /** loadImage as a decision over the probe: each fail-fast check in source order,
      then the pixel-format switch. */
  function Load(p: LoadProbe): (r: Result<Frame, LoadError>)
    requires p.frame.format == Pal8 ==> WellFormedPal8(p.frame)
    ensures r.Success? ==> IsCanonical(r.value.format)
    ensures r.Success? ==> r.value.width == p.frame.width && r.value.height == p.frame.height
  {
    if !p.contextAllocated then Failure(ContextAllocation)
    else if !p.containerOpened then Failure(OpenFailed)
    else if p.streamCount < 1 then Failure(MissingStreams)
    else if p.firstStreamType != Video then Failure(WrongStream)
    else if !p.contextCopied then Failure(ContextCopy)
    else if !p.decoderFound then Failure(UnsupportedFormat)
    else if !p.codecOpened then Failure(CodecOpen)
    else if !p.packetRead then Failure(ReadFailed)
    else if p.packetStream != 0 then Failure(InvalidStream)
    else if !p.decodeOk then Failure(DecodeFailed)
    else Normalise(p.frame)
  }

  /** The checks of loadImage as a list, in the order the code makes them. */
  function LoadChecks(p: LoadProbe): (cs: seq<Check<LoadError>>) {
    [ Check(p.contextAllocated, ContextAllocation),
      Check(p.containerOpened, OpenFailed),
      Check(p.streamCount >= 1, MissingStreams),
      Check(p.firstStreamType == Video, WrongStream),
      Check(p.contextCopied, ContextCopy),
      Check(p.decoderFound, UnsupportedFormat),
      Check(p.codecOpened, CodecOpen),
      Check(p.packetRead, ReadFailed),
      Check(p.packetStream == 0, InvalidStream),
      Check(p.decodeOk, DecodeFailed),
      Check(Loadable(p.frame.format), UnsupportedPixelFormat) ]
  }

  /** Loading fails exactly when some check fails, with the error of the first
      failing check, and then produces no frame. */
  lemma LoadReportsFirstFailure(p: LoadProbe)
    requires p.frame.format == Pal8 ==> WellFormedPal8(p.frame)
    ensures Load(p).Failure? <==> FirstFailure(LoadChecks(p)).Some?
    ensures Load(p).Failure? ==> FirstFailure(LoadChecks(p)) == Some(Load(p).error)
  {
    var cs := LoadChecks(p);
    var r := Load(p);
    if !p.contextAllocated { assert FailsFirstAt(cs, 0) && r == Failure(ContextAllocation); }
    else if !p.containerOpened { assert FailsFirstAt(cs, 1) && r == Failure(OpenFailed); }
    else if p.streamCount < 1 { assert FailsFirstAt(cs, 2) && r == Failure(MissingStreams); }
    else if p.firstStreamType != Video { assert FailsFirstAt(cs, 3) && r == Failure(WrongStream); }
    else if !p.contextCopied { assert FailsFirstAt(cs, 4) && r == Failure(ContextCopy); }
    else if !p.decoderFound { assert FailsFirstAt(cs, 5) && r == Failure(UnsupportedFormat); }
    else if !p.codecOpened { assert FailsFirstAt(cs, 6) && r == Failure(CodecOpen); }
    else if !p.packetRead { assert FailsFirstAt(cs, 7) && r == Failure(ReadFailed); }
    else if p.packetStream != 0 { assert FailsFirstAt(cs, 8) && r == Failure(InvalidStream); }
    else if !p.decodeOk { assert FailsFirstAt(cs, 9) && r == Failure(DecodeFailed); }
    else if !Loadable(p.frame.format) { assert FailsFirstAt(cs, 10) && r == Failure(UnsupportedPixelFormat); }
    else {
      assert forall i :: 0 <= i < |cs| ==> cs[i].passed;
      assert r.Success?;
    }
  }

  /** A file whose first stream is not video fails with WrongStream once the
      earlier checks have passed, whatever the later probes say and for any
      decoded frame the decoder could produce. */
  lemma WrongStreamKindFails(p: LoadProbe)
    requires p.frame.format == Pal8 ==> WellFormedPal8(p.frame)
    requires p.contextAllocated && p.containerOpened && p.streamCount >= 1 && p.firstStreamType != Video
    ensures Load(p) == Failure(WrongStream)
  {
  }

  /** A loaded frame is never PAL8, and every PAL8 input that passes the checks
      loads as an RGB24 frame of the same size. */
  lemma LoadedNeverPal8(p: LoadProbe)
    requires p.frame.format == Pal8 ==> WellFormedPal8(p.frame)
    ensures Load(p).Success? ==> Load(p).value.format != Pal8
    ensures Load(p).Success? && p.frame.format == Pal8 ==> Load(p).value.format == Rgb24
  {
  }
}
