/** The parts of djv::Core::FileInfo the codecs and the viewer use: a path that
    names one file or a numbered sequence of files. FileInfo.cpp is not part of
    this model; file names follow the zero-padded naming convention. */
module CoreFileInfo {
  import opened CoreSequence

  datatype FileType = File | SequenceFile

  datatype FileInfo = FileInfo(base: string, extension: string, fileType: FileType, sequence: Sequence)

  const EMPTY_FILE_INFO: FileInfo := FileInfo("", "", File, Sequence([], 0, Speed(24, 1)))

  /** FileInfo::isSequenceValid: a sequence with at least one frame. */
  predicate IsSequenceValid(f: FileInfo)
  {
    f.fileType == SequenceFile && |f.sequence.frames| > 0
  }

  /** FileInfo::fileName(frame): the name of the file that holds `frame`. */
  function FileName(f: FileInfo, frame: int): string
  {
    if f.fileType == SequenceFile then f.base + FrameString(frame, if f.sequence.pad < 0 then 0 else f.sequence.pad) + f.extension
    else f.base + f.extension
  }

  /** FileInfo::fileName() */
  function Path(f: FileInfo): string
  {
    f.base + f.extension
  }
}
