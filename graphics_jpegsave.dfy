/** djv::Graphics::JPEGSave, the JPEG writer: the output format is chosen when
    a file is opened, and each frame is compressed bottom row first through
    libjpeg. libjpeg, fopen and the OpenGL conversion copy are parameters: which
    call fails, and the pixels the conversion produces. */
module GraphicsJpegSave {
  import opened CoreErrors
  import opened CoreMemory
  import opened CoreSequence
  import opened CoreFileInfo
  import opened GraphicsPixel

  /** The format JPEG stores: alpha is dropped and channels are 8-bit. */
  function SaveFormat(p: PixelFormat): (r: PixelFormat)
    ensures r.channelType == U8
    ensures r == L_U8 || r == RGB_U8
    ensures r == L_U8 <==> p.format == L || p.format == LA
  {
    match p.format
    case L | LA => L_U8
    case RGB | RGBA => RGB_U8
  }

  /** _info after open: only the size and the stored format of the input. */
  function SaveInfo(input: ImageIOInfo): (r: ImageIOInfo)
    ensures r.info.width == input.info.width && r.info.height == input.info.height
    ensures r.info.pixel == SaveFormat(input.info.pixel)
    ensures r.info.pixel == L_U8 || r.info.pixel == RGB_U8
  {
    ImageIOInfo(PixelDataInfo("", input.info.width, input.info.height, SaveFormat(input.info.pixel), false, 0),
      [], EMPTY_SEQUENCE, map[])
  }

  /** Storing a stored format again changes nothing. */
  lemma SaveFormatIdempotent(p: PixelFormat)
    ensures SaveFormat(SaveFormat(p)) == SaveFormat(p)
  {
  }

  /** The format keeps the colour channels of the input and drops only alpha. */
  lemma SaveFormatKeepsColour(p: PixelFormat)
    ensures Channels(SaveFormat(p).format) ==
            Channels(p.format) - (if p.format == LA || p.format == RGBA then 1 else 0)
  {
  }

  datatype ColorSpace = Grayscale | Rgb

  /** input_components and in_color_space for the stored format; None where
      jpegOpen leaves libjpeg's values alone. */
  function Components(p: PixelFormat): Option<(nat, ColorSpace)>
  {
    if p == L_U8 then Some((1, Grayscale))
    else if p == RGB_U8 then Some((3, Rgb))
    else None
  }

  /** Every format the writer stores sets the components, one per channel. */
  lemma ComponentsOfSaveFormat(p: PixelFormat)
    ensures Components(SaveFormat(p)).Some?
    ensures Components(SaveFormat(p)).value.0 == Channels(SaveFormat(p).format)
    ensures Components(SaveFormat(p)).value.1 == Grayscale <==> SaveFormat(p).format == L
  {
  }

  /** The COM marker jpegOpen writes: the description, when it is not empty. */
  function CommentMarker(tags: Tags): (r: Option<string>)
    ensures r.Some? <==> Tag(tags, DESCRIPTION) != ""
    ensures r.Some? ==> DESCRIPTION in tags && r.value == tags[DESCRIPTION]
  {
    var tag := Tag(tags, DESCRIPTION);
    if |tag| == 0 then None else Some(tag)
  }

  /** The settings jpegOpen gives libjpeg. */
  datatype Settings = Settings(
    width: nat,
    height: nat,
    components: Option<(nat, ColorSpace)>,
    quality: int,
    comment: Option<string>)

  function SettingsFor(info: ImageIOInfo, quality: int): Settings
  {
    Settings(info.info.width, info.info.height, Components(info.info.pixel), quality, CommentMarker(info.tags))
  }

  /** write converts unless the input's shape is exactly the stored one. */
  predicate NeedsConversion(input: Image, save: ImageIOInfo)
  {
    input.info != save.info
  }

  /** Images read with their rows mirrored, as PIC images are, do not match the
      stored shape and are always converted. */
  lemma MirroredAlwaysConverts(input: Image, source: ImageIOInfo)
    requires input.info.mirrorY
    ensures NeedsConversion(input, SaveInfo(source))
  {
  }

  /** A 3-channel 8-bit image of the stored size goes to libjpeg unconverted. */
  lemma StoredShapeNotConverted(input: Image, source: ImageIOInfo)
    requires input.info == SaveInfo(source).info
    ensures !NeedsConversion(input, SaveInfo(source))
  {
  }

  /** What libjpeg is asked to do for the current file. */
  datatype Stage = Idle | Writing | Finished

  class JpegSave {
    var file: FileInfo
    var info: ImageIOInfo        // _info
    var image: Image             // _image, the conversion buffer
    const quality: int
    var jpegInit: bool
    var fileOpen: bool           // _f is not null
    var target: string           // the file last opened for writing
    var settings: Option<Settings>
    var scanlines: seq<seq<byte>>
    var stage: Stage

    /** A file is only open while the compressor is initialised. */
    ghost predicate Valid()
      reads this
    {
      fileOpen ==> jpegInit
    }

    constructor (quality: int)
      ensures Valid() && this.quality == quality
      ensures !jpegInit && !fileOpen && stage == Idle && scanlines == []
    {
      this.quality := quality;
      file := EMPTY_FILE_INFO;
      info := EMPTY_IO_INFO;
      image := EMPTY_IMAGE;
      jpegInit, fileOpen := false, false;
      target := [];
      settings := None;
      scanlines := [];
      stage := Idle;
    }

    /** open: remember the file (a sequence when more than one frame is
        saved), fix the stored shape and allocate the conversion buffer. */
    method Open(fileInfo: FileInfo, ioInfo: ImageIOInfo)
      requires Valid()
      modifies this`file, this`info, this`image
      ensures Valid()
      ensures file == (if |ioInfo.sequence.frames| > 1 then fileInfo.(fileType := SequenceFile) else fileInfo)
      ensures info == SaveInfo(ioInfo)
      ensures image.info == info.info && WellFormed(image)
    {
      file := fileInfo;
      if |ioInfo.sequence.frames| > 1 {
        file := file.(fileType := SequenceFile);
      }
      info := SaveInfo(ioInfo);
      image := Image(info.info, ZeroRows(info.info), map[]);
    }

    /** close: destroy the compressor and close the file, each only when held.
        Closing twice is the same as closing once. */
    method Close()
      requires Valid()
      modifies this`jpegInit, this`fileOpen
      ensures Valid() && !jpegInit && !fileOpen
    {
      if jpegInit {
        jpegInit := false;
      }
      if fileOpen {
        fileOpen := false;
      }
    }

    /** _open: close, initialise libjpeg (`initOk`), create `name` (`fopenOk`)
        and start compressing with the settings of `ioInfo` (`startOk`). */
    method OpenFile(name: string, ioInfo: ImageIOInfo, initOk: bool, fopenOk: bool, startOk: bool) returns (r: Outcome)
      requires Valid()
      modifies this`jpegInit, this`fileOpen, this`target, this`settings, this`scanlines, this`stage
      ensures Valid()
      ensures !initOk ==> r == Fail(LibraryError) && !jpegInit && !fileOpen
      ensures initOk && !fopenOk ==> r == Fail(OpenError) && jpegInit && !fileOpen
      ensures initOk && fopenOk ==> jpegInit && fileOpen && target == name && scanlines == []
      ensures !(initOk && fopenOk && startOk) ==> scanlines == [] && stage == Idle && settings == None
      ensures initOk && fopenOk && !startOk ==> r == Fail(LibraryError)
      ensures initOk && fopenOk && startOk ==>
        r == Pass && stage == Writing && settings == Some(SettingsFor(ioInfo, quality))
    {
      Close();
      settings, scanlines, stage := None, [], Idle;
      if !initOk {
        return Fail(LibraryError);
      }
      jpegInit := true;
      if !fopenOk {
        return Fail(OpenError);
      }
      fileOpen := true;
      target := name;
      if !startOk {
        return Fail(LibraryError);
      }
      settings := Some(SettingsFor(ioInfo, quality));
      stage := Writing;
      r := Pass;
    }

    /** The scanline loop of write: rows bottom first, stopping at the scanline
        libjpeg refuses. */
    method WriteScanlines(src: seq<seq<byte>>, failAt: Option<nat>) returns (r: Outcome)
      requires stage == Writing
      modifies this`scanlines
      ensures failAt.Some? && failAt.value < |src| ==>
        r == Fail(LibraryError) && scanlines == Reverse(src)[..failAt.value]
      ensures !(failAt.Some? && failAt.value < |src|) ==> r == Pass && scanlines == Reverse(src)
    {
      scanlines := [];
      var h := |src|;
      var y := 0;
      while y < h
        invariant 0 <= y <= h && scanlines == Reverse(src)[..y]
        invariant failAt.None? || failAt.value >= y
      {
        if failAt == Some(y) {
          return Fail(LibraryError);
        }
        scanlines := scanlines + [src[h - 1 - y]];
        y := y + 1;
      }
      assert Reverse(src)[..h] == Reverse(src);
      r := Pass;
    }

    /** write: open the file of `frame` with the input's tags, convert the input
        when its shape is not the stored one (`converted` is what the OpenGL copy
        produces), hand libjpeg the rows bottom first, finish and close. libjpeg
        fails on scanline `failAt` (if any) or when finishing (`finishOk` false);
        a failure leaves the compressor and the file held until the next open or
        close. */
    method Write(input: Image, frame: int, converted: seq<seq<byte>>, initOk: bool, fopenOk: bool, startOk: bool,
                 failAt: Option<nat>, finishOk: bool) returns (r: Outcome)
      requires Valid() && WellFormed(input) && WellFormed(Image(info.info, converted, map[]))
      modifies this
      ensures Valid() && file == old(file) && info == old(info)
      ensures var start := OpenOutcome(initOk, fopenOk, startOk);
              start != Pass ==>
                r == start && image == old(image) && scanlines == [] && stage == Idle && settings == None
      ensures !initOk ==> !jpegInit && !fileOpen
      ensures initOk && !fopenOk ==> jpegInit && !fileOpen
      ensures initOk && fopenOk && !startOk ==> jpegInit && fileOpen && target == FileName(file, frame)
      ensures initOk && fopenOk && startOk ==>
        target == FileName(file, frame) && settings == Some(SettingsFor(info.(tags := input.tags), quality))
      ensures initOk && fopenOk && startOk ==>
        var src := if NeedsConversion(input, info) then converted else input.rows;
        image == (if NeedsConversion(input, info) then Image(info.info, converted, old(image).tags) else old(image)) &&
        if failAt.Some? && failAt.value < |src| then
          r == Fail(LibraryError) && scanlines == Reverse(src)[..failAt.value] && stage == Writing && jpegInit && fileOpen
        else if !finishOk then
          r == Fail(LibraryError) && scanlines == Reverse(src) && stage == Writing && jpegInit && fileOpen
        else
          r == Pass && scanlines == Reverse(src) && stage == Finished && !jpegInit && !fileOpen
    {
      var name := FileName(file, frame);
      var o := OpenFile(name, info.(tags := input.tags), initOk, fopenOk, startOk);
      if o.Fail? {
        return o;
      }
      var src := input.rows;
      if NeedsConversion(input, info) {
        image := Image(info.info, converted, image.tags);
        src := image.rows;
      }
      r := WriteScanlines(src, failAt);
      if r.Fail? {
        return;
      }
      if !finishOk {
        return Fail(LibraryError);
      }
      stage := Finished;
      Close();
      r := Pass;
    }
  }

  /** The outcome of _open for the given libjpeg and fopen results. */
  function OpenOutcome(initOk: bool, fopenOk: bool, startOk: bool): Outcome
  {
    if !initOk then Fail(LibraryError)
    else if !fopenOk then Fail(OpenError)
    else if !startOk then Fail(LibraryError)
    else Pass
  }
}
