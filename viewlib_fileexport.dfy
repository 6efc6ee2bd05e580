/** djv::ViewLib::FileExport, the export of a file or sequence through a
    loader and a saver, one frame per progress callback. The codec registry,
    the loader's reads, the OpenGL copy and the saver's outcomes are parameters;
    what the saver is asked to do is kept as a log of calls. */
module ViewLibFileExport {
  import opened CoreErrors
  import opened CoreMemory
  import opened CoreSequence
  import opened CoreFileInfo
  import opened GraphicsPixel

  /** FileExportInfo without its OpenGL image options, which the model keeps
      only as "equal to the defaults or not" when a frame is processed. */
  datatype ExportInfo = ExportInfo(
    inputFile: FileInfo,
    outputFile: FileInfo,
    info: PixelDataInfo,
    sequence: Sequence,
    layer: int,
    proxy: nat,
    u8Conversion: bool,
    colorProfile: bool)

  /** A default-constructed FileExportInfo. */
  const EMPTY_EXPORT_INFO: ExportInfo :=
    ExportInfo(EMPTY_FILE_INFO, EMPTY_FILE_INFO, EMPTY_INFO, EMPTY_SEQUENCE, 0, 0, false, false)

  /** A call made on the saver. */
  datatype SaveCall = WriteFrame(image: Image, frame: int) | CloseSaver

  /** The frames the export saves: renumbered from the output file's first
      frame when the output names a valid sequence, keeping the input's pad and
      speed; the input's own sequence otherwise. */
  function SaveSequence(info: ExportInfo): (r: Sequence)
    ensures !IsSequenceValid(info.outputFile) ==> r == info.sequence
    ensures IsSequenceValid(info.outputFile) ==>
      |r.frames| == |info.sequence.frames| && r.pad == info.sequence.pad && r.speed == info.sequence.speed &&
      forall i :: 0 <= i < |r.frames| ==> r.frames[i] == info.outputFile.sequence.frames[0] + i
  {
    if IsSequenceValid(info.outputFile) then
      Sequence(FrameRange(info.outputFile.sequence.frames[0], |info.sequence.frames|), info.sequence.pad, info.sequence.speed)
    else
      info.sequence
  }

  /** The frame number for progress index `index`: the sequence's frame there,
      or -1 past its end. Used for both the frame read and the frame written. */
  function FrameAt(s: Sequence, index: nat): (r: int)
    ensures index < |s.frames| ==> r == s.frames[index]
    ensures index >= |s.frames| ==> r == -1
  {
    if index < |s.frames| then s.frames[index] else -1
  }

  /** The length of the progress run: one step per frame, one step for a
      file without frames. */
  function ProgressLength(s: Sequence): (r: nat)
    ensures r >= 1
    ensures |s.frames| > 0 ==> r == |s.frames|
    ensures |s.frames| == 0 ==> r == 1
  {
    if |s.frames| > 0 then |s.frames| else 1
  }

  /** Whether a frame goes through the OpenGL copy: its shape differs from the
      export shape, or the image options are not the defaults. */
  function Converts(image: Image, shape: PixelDataInfo, optionsDefault: bool): bool
  {
    image.info != shape || !optionsDefault
  }

  /** The image handed to the saver: the scratch image `tmp`, which holds the
      converted pixels of the export shape only when the copy ran, an empty
      buffer otherwise, and the read image's tags in both cases. */
  function WrittenImage(image: Image, shape: PixelDataInfo, optionsDefault: bool, rows: seq<seq<byte>>): (r: Image)
    ensures r.tags == image.tags
    ensures Converts(image, shape, optionsDefault) ==> r.info == shape && r.rows == rows
    ensures !Converts(image, shape, optionsDefault) ==> r.info == EMPTY_INFO && r.rows == [] && !IsValid(r)
  {
    var tmp := if Converts(image, shape, optionsDefault) then Image(shape, rows, map[]) else EMPTY_IMAGE;
    tmp.(tags := image.tags)
  }

  /** With a valid output sequence, progress index i writes output frame
      first + i for every input frame, and -1 past the last one. */
  lemma OutputFramesRenumbered(info: ExportInfo, index: nat)
    requires IsSequenceValid(info.outputFile)
    ensures index < |info.sequence.frames| ==>
      FrameAt(SaveSequence(info), index) == info.outputFile.sequence.frames[0] + index
    ensures index >= |info.sequence.frames| ==> FrameAt(SaveSequence(info), index) == -1
  {
  }

  /** Without a valid output sequence, every index reads and writes the same
      frame number. */
  lemma FramesKeptWithoutOutputSequence(info: ExportInfo, index: nat)
    requires !IsSequenceValid(info.outputFile)
    ensures FrameAt(SaveSequence(info), index) == FrameAt(info.sequence, index)
  {
  }

  /** The index after which the saver is closed writes the save sequence's
      last frame; with a valid output sequence that is the output's first frame
      plus the input's frame count less one. */
  lemma CloseFollowsLastFrame(info: ExportInfo, index: nat)
    requires |SaveSequence(info).frames| - 1 == index
    ensures FrameAt(SaveSequence(info), index) == End(SaveSequence(info))
    ensures IsSequenceValid(info.outputFile) ==>
      index == |info.sequence.frames| - 1 &&
      End(SaveSequence(info)) == info.outputFile.sequence.frames[0] + |info.sequence.frames| - 1
  {
  }

  /** When a frame already has the export shape and the options are the
      defaults, the saver receives no pixels, only the tags. */
  lemma UnconvertedFrameWritesNoPixels(image: Image, optionsDefault: bool, rows: seq<seq<byte>>)
    requires optionsDefault
    ensures WrittenImage(image, image.info, optionsDefault, rows) == Image(EMPTY_INFO, [], image.tags)
  {
  }

  class FileExport {
    var info: ExportInfo
    var saveSequence: Sequence
    var hasLoad: bool
    var hasSave: bool
    var loadTags: Tags                 // the tags the loader reported when it was opened
    var saverInfo: Option<ImageIOInfo> // what the current saver was opened with
    var saves: seq<SaveCall>           // every call made on a saver, in order
    var requested: seq<int>            // every frame number asked of a loader, in order
    var dialogVisible: bool
    var progress: Option<nat>          // the length the progress dialog was last started with

    /** The saver exists only together with the loader it exports from. */
    ghost predicate Valid()
      reads this
    {
      (hasSave ==> hasLoad) && (saverInfo.Some? <==> hasSave)
    }

    constructor ()
      ensures Valid()
      ensures info == EMPTY_EXPORT_INFO && saveSequence == EMPTY_SEQUENCE && !hasLoad && !hasSave
      ensures saves == [] && requested == [] && !dialogVisible && progress == None
    {
      info := EMPTY_EXPORT_INFO;
      saveSequence := EMPTY_SEQUENCE;
      hasLoad := false;
      hasSave := false;
      loadTags := map[];
      saverInfo := None;
      saves := [];
      requested := [];
      dialogVisible := false;
      progress := None;
    }

    /** cancel: hide the dialog, close a present saver (a failing close is
        only reported), and forget the export, the loader and the saver. The
        save sequence is kept. */
    method Cancel()
      modifies this`dialogVisible, this`saves, this`info, this`hasLoad, this`hasSave, this`saverInfo
      ensures Valid()
      ensures !dialogVisible && info == EMPTY_EXPORT_INFO && !hasLoad && !hasSave
      ensures saves == old(saves) + (if old(hasSave) then [CloseSaver] else [])
    {
      if dialogVisible {
        dialogVisible := false;
      }
      if hasSave {
        saves := saves + [CloseSaver];
      }
      info := EMPTY_EXPORT_INFO;
      hasLoad := false;
      hasSave := false;
      saverInfo := None;
    }

    /** start: cancel any export in progress, record the export and its save
        sequence, open the loader (`load` is what the registry returns) and
        then the saver with the export shape, the loader's tags and the save
        sequence (`saveOk` says whether that succeeds); on either failure stop
        before starting the progress run. `size` is the export shape's size after
        the transform, which the model does not compute. */
    method Start(request: ExportInfo, size: (nat, nat), load: Result<ImageIOInfo>, saveOk: bool)
      modifies this
      ensures Valid()
      ensures saveSequence == SaveSequence(request)
      ensures info == request.(info := request.info.(width := size.0, height := size.1))
      ensures requested == old(requested)
      ensures load.Err? ==>
        !hasLoad && !hasSave && saves == old(saves) + (if old(hasSave) then [CloseSaver] else []) &&
        progress == old(progress) && !dialogVisible
      ensures load.Ok? ==> hasLoad && loadTags == load.value.tags
      ensures load.Ok? && !saveOk ==>
        !hasSave && saves == old(saves) + (if old(hasSave) then [CloseSaver] else []) &&
        progress == old(progress) && !dialogVisible
      ensures load.Ok? && saveOk ==>
        hasSave && saverInfo == Some(ImageIOInfo(info.info, [], saveSequence, load.value.tags)) &&
        saves == old(saves) + (if old(hasSave) then [CloseSaver] else []) &&
        progress == Some(ProgressLength(request.sequence)) && dialogVisible
    {
      Cancel();
      info := request;
      saveSequence := SaveSequence(request);
      info := info.(info := info.info.(width := size.0, height := size.1));
      if load.Err? {
        return;
      }
      hasLoad := true;
      loadTags := load.value.tags;
      var saveInfo := ImageIOInfo(info.info, [], saveSequence, loadTags);
      if !saveOk {
        return;
      }
      hasSave := true;
      saverInfo := Some(saveInfo);
      progress := Some(ProgressLength(info.sequence));
      dialogVisible := true;
    }

    /** callback(index): read frame FrameAt(sequence, index) (`read` is what the
        loader gives); put it through the OpenGL copy when Converts says so
        (`converted` is what the copy gives); write the scratch image as frame
        FrameAt(saveSequence, index) (`writeOk` says whether the saver accepts
        it); close the saver after the last index. A failed read, copy or write
        cancels the export. */
    method Callback(index: nat, read: Result<Image>, optionsDefault: bool,
                    converted: Result<seq<seq<byte>>>, writeOk: bool)
      requires Valid() && hasLoad && hasSave
      modifies this`dialogVisible, this`saves, this`info, this`hasLoad, this`hasSave, this`saverInfo, this`requested
      ensures Valid()
      ensures requested == old(requested) + [FrameAt(old(info).sequence, index)]
      ensures read.Err? ==>
        saves == old(saves) + [CloseSaver] && !hasLoad && !hasSave && info == EMPTY_EXPORT_INFO &&
        !dialogVisible && saverInfo == None
      ensures read.Ok? && Converts(read.value, old(info).info, optionsDefault) && converted.Err? ==>
        saves == old(saves) + [CloseSaver] && !hasLoad && !hasSave && info == EMPTY_EXPORT_INFO &&
        !dialogVisible && saverInfo == None
      ensures read.Ok? && (!Converts(read.value, old(info).info, optionsDefault) || converted.Ok?) ==>
        var tmp := WrittenImage(read.value, old(info).info, optionsDefault, if converted.Ok? then converted.value else []);
        var written := old(saves) + [WriteFrame(tmp, FrameAt(saveSequence, index))];
        (!writeOk ==>
          saves == written + [CloseSaver] && !hasLoad && !hasSave && info == EMPTY_EXPORT_INFO &&
          !dialogVisible && saverInfo == None) &&
        (writeOk ==>
          info == old(info) && hasLoad && hasSave &&
          dialogVisible == old(dialogVisible) && saverInfo == old(saverInfo) &&
          saves == written + (if |saveSequence.frames| - 1 == index then [CloseSaver] else []))
    {
      requested := requested + [FrameAt(info.sequence, index)];
      if read.Err? {
        Cancel();
        return;
      }
      var image := read.value;
      var rows: seq<seq<byte>> := [];
      if Converts(image, info.info, optionsDefault) {
        if converted.Err? {
          Cancel();
          return;
        }
        rows := converted.value;
      }
      var tmp := WrittenImage(image, info.info, optionsDefault, rows);
      saves := saves + [WriteFrame(tmp, FrameAt(saveSequence, index))];
      if !writeOk {
        Cancel();
        return;
      }
      if |saveSequence.frames| - 1 == index {
        saves := saves + [CloseSaver];
      }
    }

    /** finishedCallback: close the saver when the progress run ends (a failing
        close is only reported). */
    method FinishedCallback()
      requires hasSave
      modifies this`saves
      ensures saves == old(saves) + [CloseSaver]
    {
      saves := saves + [CloseSaver];
    }
  }
}
