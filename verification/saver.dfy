/** saveImage: pick the Netpbm encoder for the desired format, coerce the frame
    to the format actually encoded when it differs, and write one frame. The
    library calls are abstracted to the outcomes recorded in a `SaveProbe`. */
module Saver {
  import opened Wrappers
  import opened Frames
  import opened FailFast

  /** The three output encoders: PPM (colour), PGM (grey), PBM (bilevel). */
  datatype Codec = Ppm | Pgm | Pbm

  /** The outcome of the format switch: the encoder chosen (None while
      `output_codec` keeps its initial -1) and the format actually encoded. */
  datatype Target = Target(codec: Option<Codec>, format: PixFmt)

  /** The format switch of saveImage: grey-with-alpha collapses to grey, both
      bilevel formats collapse to white-is-zero; an unlisted format selects no
      encoder and is left as it is. */
  function SaveTarget(desired: PixFmt): (t: Target)
    ensures t.codec.Some? <==> IsCanonical(desired)
    ensures t.codec.Some? ==> IsEncodable(t.format)
    ensures t.codec.None? ==> t.format == desired
    ensures IsEncodable(desired) ==> t.format == desired
  {
    match desired
    case Rgb24 => Target(Some(Ppm), desired)
    case Y400A | Gray8 => Target(Some(Pgm), Gray8)
    case MonoBlack | MonoWhite => Target(Some(Pbm), MonoWhite)
    case _ => Target(None, desired)
  }

  /** The mapping, spelled out for every format the switch names. */
  lemma SaveTargetTable()
    ensures SaveTarget(Rgb24) == Target(Some(Ppm), Rgb24)
    ensures SaveTarget(Gray8) == Target(Some(Pgm), Gray8) && SaveTarget(Y400A) == Target(Some(Pgm), Gray8)
    ensures SaveTarget(MonoBlack) == Target(Some(Pbm), MonoWhite)
    ensures SaveTarget(MonoWhite) == Target(Some(Pbm), MonoWhite)
    ensures SaveTarget(Pal8) == Target(None, Pal8)
    ensures forall id :: SaveTarget(Other(id)) == Target(None, Other(id))
  {
  }

  /** Normalising twice is normalising once, and the normalised format selects
      the same encoder as the format it came from. */
  lemma SaveTargetIdempotent(desired: PixFmt)
    ensures SaveTarget(SaveTarget(desired).format) == SaveTarget(desired)
  {
  }

  /** The frame handed to the encoder: the caller's own, or one saveImage
      allocated (with the given size and format) and filled by copying. */
  datatype FrameRef = Caller | Transient(width: int, height: int, format: PixFmt)

  /** Whether saveImage allocates and copies into a new frame. */
  predicate Coerces(inputFormat: PixFmt, desired: PixFmt) {
    inputFormat != SaveTarget(desired).format
  }

  /** The frame saveImage encodes from. */
  function OutputFrame(input: Frame, desired: PixFmt): (out: FrameRef)
    ensures out.Transient? <==> input.format != SaveTarget(desired).format
    ensures out.Transient? ==>
              out == Transient(input.width, input.height, SaveTarget(desired).format)
  {
    var target := SaveTarget(desired);
    if input.format != target.format then Transient(input.width, input.height, target.format)
    else Caller
  }

  /** Size and format of the frame a reference denotes. */
  function Width(f: FrameRef, input: Frame): (w: int) {
    if f.Caller? then input.width else f.width
  }
  function Height(f: FrameRef, input: Frame): (h: int) {
    if f.Caller? then input.height else f.height
  }
  function Format(f: FrameRef, input: Frame): (fmt: PixFmt) {
    if f.Caller? then input.format else f.format
  }

  /** The frames saveImage frees at its end: the encoded frame, only when it is
      not the caller's. */
  function Freed(output: FrameRef): (freed: set<FrameRef>)
    ensures Caller !in freed
    ensures output.Transient? ==> output in freed
    ensures forall f :: f in freed ==> f == output
  {
    if output != Caller then {output} else {}
  }

  /** The outcomes of the library calls saveImage makes, in the order it makes them. */
  datatype SaveProbe = SaveProbe(
    image2Found: bool,         // av_guess_format("image2") found the muxer
    contextAllocated: bool,    // avformat_alloc_context returned a context
    encoderAvailable: bool,    // the library has an encoder for the chosen codec
    streamCreated: bool,       // avformat_new_stream succeeded
    codecOpened: bool,         // avcodec_open2 succeeded
    fileOpened: bool,          // avio_open succeeded
    headerWritten: bool,       // avformat_write_header succeeded
    encodeOk: bool)            // avcodec_encode_video2 succeeded

  /** Each errOutput call of saveImage. */
  datatype SaveError =
    | NoOutputFormat
    | ContextAllocation
    | CodecNotFound
    | StreamAllocation
    | CodecOpen
    | FileOpen
    | HeaderWrite
    | EncodeFailed

  /** The single output stream: dimensions, pixel format and time base. */
  datatype Stream = Stream(width: int, height: int, format: PixFmt, timeBaseNum: int, timeBaseDen: int)

  /** A completed save: the encoder, the stream, the frame encoded and the frames freed. */
  datatype Saved = Saved(codec: Codec, stream: Stream, encoded: FrameRef, freed: set<FrameRef>)

  /** saveImage as a decision over the probe. The coercion happens before the
      encoder lookup, so an unmapped format still gets a transient frame before
      the save fails. */
  function Save(input: Frame, desired: PixFmt, p: SaveProbe): (r: Result<Saved, SaveError>)
    ensures r.Success? ==> IsCanonical(desired) && Some(r.value.codec) == SaveTarget(desired).codec
    ensures r.Success? ==> r.value.stream.format == SaveTarget(desired).format
    ensures r.Success? ==> r.value.stream.width == input.width && r.value.stream.height == input.height
    ensures r.Success? ==> r.value.stream.timeBaseNum == 1 && r.value.stream.timeBaseDen == 1
    ensures r.Success? ==> (r.value.encoded.Transient? <==> Coerces(input.format, desired))
    ensures r.Success? ==> Caller !in r.value.freed && r.value.freed <= {r.value.encoded}
    ensures r.Success? ==> (r.value.freed != {} <==> Coerces(input.format, desired))
    ensures !IsCanonical(desired) && p.image2Found && p.contextAllocated ==> r == Failure(CodecNotFound)
  {
    if !p.image2Found then Failure(NoOutputFormat)
    else if !p.contextAllocated then Failure(ContextAllocation)
    else
      var target := SaveTarget(desired);
      var output := OutputFrame(input, desired);
      if target.codec.None? || !p.encoderAvailable then Failure(CodecNotFound)
      else if !p.streamCreated then Failure(StreamAllocation)
      else
        var stream := Stream(Width(output, input), Height(output, input), Format(output, input), 1, 1);
        if !p.codecOpened then Failure(CodecOpen)
        else if !p.fileOpened then Failure(FileOpen)
        else if !p.headerWritten then Failure(HeaderWrite)
        else if !p.encodeOk then Failure(EncodeFailed)
        else Success(Saved(target.codec.value, stream, output, Freed(output)))
  }

  /** The checks of saveImage as a list, in the order the code makes them. */
  function SaveChecks(desired: PixFmt, p: SaveProbe): (cs: seq<Check<SaveError>>) {
    [ Check(p.image2Found, NoOutputFormat),
      Check(p.contextAllocated, ContextAllocation),
      Check(SaveTarget(desired).codec.Some? && p.encoderAvailable, CodecNotFound),
      Check(p.streamCreated, StreamAllocation),
      Check(p.codecOpened, CodecOpen),
      Check(p.fileOpened, FileOpen),
      Check(p.headerWritten, HeaderWrite),
      Check(p.encodeOk, EncodeFailed) ]
  }

  /** Saving fails exactly when some check fails, with the error of the first
      failing check. */
  lemma SaveReportsFirstFailure(input: Frame, desired: PixFmt, p: SaveProbe)
    ensures Save(input, desired, p).Failure? <==> FirstFailure(SaveChecks(desired, p)).Some?
    ensures Save(input, desired, p).Failure? ==>
              FirstFailure(SaveChecks(desired, p)) == Some(Save(input, desired, p).error)
  {
    var cs := SaveChecks(desired, p);
    var r := Save(input, desired, p);
    if !p.image2Found { assert FailsFirstAt(cs, 0) && r == Failure(NoOutputFormat); }
    else if !p.contextAllocated { assert FailsFirstAt(cs, 1) && r == Failure(ContextAllocation); }
    else if SaveTarget(desired).codec.None? || !p.encoderAvailable { assert FailsFirstAt(cs, 2) && r == Failure(CodecNotFound); }
    else if !p.streamCreated { assert FailsFirstAt(cs, 3) && r == Failure(StreamAllocation); }
    else if !p.codecOpened { assert FailsFirstAt(cs, 4) && r == Failure(CodecOpen); }
    else if !p.fileOpened { assert FailsFirstAt(cs, 5) && r == Failure(FileOpen); }
    else if !p.headerWritten { assert FailsFirstAt(cs, 6) && r == Failure(HeaderWrite); }
    else if !p.encodeOk { assert FailsFirstAt(cs, 7) && r == Failure(EncodeFailed); }
    else {
      assert forall i :: 0 <= i < |cs| ==> cs[i].passed;
      assert r.Success?;
    }
  }
}
