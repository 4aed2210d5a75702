/** saveDebug: when the verbosity reaches the debug-save level, save the image
    under a numbered name, asking for the image's own format. */
module DebugSave {
  import opened Wrappers
  import opened Frames
  import Saver
  import Loader

  /** One call of saveImage: the file name template with the index to render
      into it, and the desired output format. */
  datatype SaveRequest = SaveRequest(template: string, index: int, desired: PixFmt)

  /** The saves saveDebug performs; `debugSaveLevel` is the VERBOSE_DEBUG_SAVE
      threshold and `verbose` the current verbosity. */
  function DebugSaves(verbose: int, debugSaveLevel: int, template: string, index: int, image: Frame)
    : (saves: seq<SaveRequest>)
    ensures verbose < debugSaveLevel ==> saves == []
    ensures verbose >= debugSaveLevel ==>
              |saves| == 1 && saves[0].desired == image.format
              && saves[0].template == template && saves[0].index == index
  {
    if verbose >= debugSaveLevel then [SaveRequest(template, index, image.format)] else []
  }

  /** Asking for the image's own format still coerces grey-with-alpha and
      black-is-zero frames; grey, RGB and white-is-zero frames are encoded as they are. */
  lemma DebugSaveCoercion(verbose: int, debugSaveLevel: int, template: string, index: int, image: Frame)
    requires verbose >= debugSaveLevel
    ensures forall s :: s in DebugSaves(verbose, debugSaveLevel, template, index, image) ==>
              (Saver.Coerces(image.format, s.desired) <==> image.format == Y400A || image.format == MonoBlack)
  {
  }

  /** Every frame loadImage returns has an output encoder for its own format,
      so its debug save never fails for want of a codec mapping. */
  lemma LoadedFramesDebugSave(lp: Loader.LoadProbe, sp: Saver.SaveProbe, verbose: int, debugSaveLevel: int,
                              template: string, index: int)
    requires lp.frame.format == Pal8 ==> Loader.WellFormedPal8(lp.frame)
    requires Loader.Load(lp).Success? && verbose >= debugSaveLevel
    requires sp.image2Found && sp.contextAllocated && sp.encoderAvailable
    ensures forall s :: s in DebugSaves(verbose, debugSaveLevel, template, index, Loader.Load(lp).value) ==>
              Saver.SaveTarget(s.desired).codec.Some?
              && Saver.Save(Loader.Load(lp).value, s.desired, sp) != Failure(Saver.CodecNotFound)
  {
  }
}
