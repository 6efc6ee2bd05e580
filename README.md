# DJV image I/O core, modelled in Dafny

This project models the image input/output core of the DJV imaging tools:

- **djvCore**
  - `FileIO` is a file with a memory-mapped read window.
  - `SequenceInline.h` covers the first and last frame of a sequence, the parsing of a frame token, and sequence equality.
- **djvGraphics**
  - The Softimage PIC loader: header validation, channel classification, the row decoding loop.
  - The JPEG saver: format mapping, the conversion decision, the bottom-up scanline order, and the libjpeg set-up decisions.
- **djvViewLib**
  - The viewer's `FileGroup`: cache invalidation by the settings, the preload timer, `image(frame)`, and the preload scan.
  - `FileExport`: the save-sequence renumbering and the per-frame read/convert/write/close steps, with cancellation on error.

Each source file keeps its own form in the model:

- **Imperative objects are classes.** `FileIO`, `PICLoad`, `JPEGSave`, `FileCache`, `FileGroup` and `FileExport` are Dafny classes. Their methods update fields and are proved against pure specification functions.
- **Loops stay loops.**
  - The PIC row loop runs in place over an `array` of rows.
  - The JPEG scanline loop and the FileGroup preload scan are `while` loops.
- **Pure code is pure.** The sequence helpers and the PIC header decisions are functions with lemmas.

Whatever the core takes from the operating system, libjpeg, OpenGL or the codec registry is a parameter of the operation that uses it:

- the bytes a file holds;
- whether mapping, writing, `fopen` or a libjpeg step succeeds;
- what a loader reads;
- what the OpenGL copy produces.

Modules:

| module | file | models |
|---|---|---|
| `CoreErrors` | core_errors.dfy | the error kinds, `Result`, `Outcome`, `Option` |
| `CoreMemory` | core_memory.dfy | bytes, `Memory::convertEndian` taken as per-word byte reversal, and word values |
| `CoreMath` | core_math.dfy | `Math::wrap` (taken as wrap into the range) and `Math::max` |
| `CoreSequence` | core_sequence.dfy | lib/djvCore/SequenceInline.h |
| `CoreFileInfo` | core_fileinfo.dfy | the parts of `FileInfo` the core reads |
| `CoreFileIO` | core_fileio.dfy | lib/djvCore/FileIO.cpp, memory-mapped read path and write path |
| `GraphicsPixel` | graphics_pixel.dfy | pixel formats, `PixelDataInfo`, images as rows of bytes, `ImageIOInfo` |
| `GraphicsPicLoad` | graphics_picload.dfy | lib/djvGraphics/PICLoad.cpp |
| `GraphicsJpegSave` | graphics_jpegsave.dfy | lib/djvGraphics/JPEGSave.cpp |
| `ViewLibFileCache` | viewlib_filecache.dfy | the abstract frame cache FileGroup uses |
| `ViewLibFileGroup` | viewlib_filegroup.dfy | lib/djvViewLib/FileGroup.cpp |
| `ViewLibFileExport` | viewlib_fileexport.dfy | lib/djvViewLib/FileExport.cpp |

Where a documented behaviour and the code differ, the model follows the code. Two such places:

- **The PIC size check.** The raw-copy guard in `PICLoad::read` compares the bytes left after the channel records with the size of the whole image. It does not subtract what the run-length planes consumed. So a raw alpha plane after a run-length RGB plane can be copied from past the end of the mapping.
  - The model keeps the guard as written.
  - It reports such a copy as the outcome `OutOfBounds`.
  - `GraphicsPicLoad.CheckPassesYetOverruns` exhibits a 116-byte file on which this happens.
- **The image FileExport writes.** `FileExport::callback` always hands the scratch image `tmp` to the saver. When no conversion ran, `tmp` holds only the read image's tags and no pixels. The model writes `tmp` as the code does (`ViewLibFileExport.WrittenImage`).

## Model

| member | source | states |
|---|---|---|
| CoreMemory.ConvertEndianAt | lib/djvCore/FileIO.cpp:313-316 | byte j of each word of the swapped buffer is byte wordSize-1-j of the same word of the original |
| CoreMemory.ConvertEndianInvolution | lib/djvCore/FileIO.cpp:357-364 | swapping the words twice gives the original bytes, so a swapped write read back with the same flag is unchanged |
| CoreMemory.LittleEndianOfReverse | lib/djvCore/FileIO.cpp:313-316 | reading a reversed word least significant byte first gives its most-significant-first value |
| CoreMath.WrapInRange | lib/djvViewLib/FileGroup.cpp:435 | a layer index already inside [0, count-1] is not moved by the wrap |
| CoreMath.WrapEnds | lib/djvViewLib/FileGroup.cpp:531 | one past the last index wraps to the first, and one below the first wraps to the last |
| CoreSequence.StartEndBound | lib/djvCore/SequenceInline.h:34-42 | in a sorted list every frame lies between start() and end(); an empty list starts and ends at 0 |
| CoreSequence.FrameRangeStartEnd | lib/djvViewLib/FileExport.cpp:122-126 | a range built from a first frame and a count starts at that frame and ends at first+count-1, ascending |
| CoreSequence.StringToFrameOfFrameString | lib/djvCore/SequenceInline.h:44-66 | stringToFrame parses a zero-padded frame name back to the same frame, and reports the pad width exactly when zeros were added |
| CoreSequence.StringToFrameExamples | lib/djvCore/SequenceInline.h:44-66 | "#" gives -1 and leaves the pad alone; "0012" is frame 12 with pad 4; "-5" and "0" have no pad |
| CoreSequence.Equal | lib/djvCore/SequenceInline.h:70-73 | two sequences are equal exactly when frames, pad and speed all agree |
| CoreSequence.NotEqual | lib/djvCore/SequenceInline.h:75-78 | != holds exactly when == does not |
| CoreFileIO.GetSpec | lib/djvCore/FileIO.cpp:304-321 | a read succeeds exactly when cursor + count*wordSize is within the mapping, gives count*wordSize bytes, and fails with a read error otherwise |
| CoreFileIO.SetBytes | lib/djvCore/FileIO.cpp:357-364 | the bytes handed to the system have the caller's length; the caller's buffer is a value and is never altered |
| CoreFileIO.WriteAt | lib/djvCore/FileIO.cpp:376-386 | written bytes land at pos, the bytes around them are kept, and a gap past the old end reads as zeros |
| CoreFileIO.GetPassesThrough | lib/djvCore/FileIO.cpp:313-320 | without the endian flag, or with one-byte words, get returns the mapped bytes unchanged |
| CoreFileIO.GetSwapsWords | lib/djvCore/FileIO.cpp:313-316 | with the endian flag and wider words, byte j of word k read is byte wordSize-1-j of that word in the file |
| CoreFileIO.SetThenGet | lib/djvCore/FileIO.cpp:350-387 | words written with an endian flag and read back with the same flag are the caller's original bytes |
| CoreFileIO.FileIO.IsValidMeansByteAvailable | lib/djvCore/FileIO.cpp:282-291 | while reading a mapped file, isValid holds exactly when one more byte can be read |
| CoreFileIO.FileIO.Open | lib/djvCore/FileIO.cpp:107-211 | closes first, sets pos 0, records size and mode; a refused open is an open error; in READ mode a non-empty file is mapped whole or fails with a map error; WRITE truncates |
| CoreFileIO.FileIO.Close | lib/djvCore/FileIO.cpp:213-275 | unmaps, closes, and resets pos, size, mode and name; safe on a closed file |
| CoreFileIO.FileIO.Get | lib/djvCore/FileIO.cpp:298-348 | returns GetSpec's bytes; on success cursor and pos advance by count*wordSize, on a read error neither moves |
| CoreFileIO.FileIO.Set | lib/djvCore/FileIO.cpp:350-387 | writes the (swapped) bytes at pos, advances pos and sets size to max(pos, size); a failed write changes nothing |
| CoreFileIO.FileIO.SetPos | lib/djvCore/FileIO.cpp:438-521 | absolute or relative move; in READ mode the cursor moves first and a cursor past the mapping is a set-position error leaving pos unchanged |
| CoreFileIO.FileIO.SetEndian | lib/djvCore/FileIO.cpp:453-456 | sets the endian flag |
| GraphicsPicLoad.ClassifyByColors | lib/djvGraphics/PICLoad.cpp:302-352 | the first-record decision agrees with the set-based layout: RGBA and RGB single records, and the chained RGB record, by their channel bits |
| GraphicsPicLoad.AlphaOnlyByColors | lib/djvGraphics/PICLoad.cpp:326-340 | the second record of a chained file is accepted exactly when it is an 8-bit unchained alpha-only record |
| GraphicsPicLoad.PicTags | lib/djvGraphics/PICLoad.cpp:366-369 | the description tag is set exactly when the comment's first byte is not zero, to the comment's characters |
| GraphicsPicLoad.HeaderSpec | lib/djvGraphics/PICLoad.cpp:263-296 | a header is accepted only with 104 bytes, the magic 0x5380F634 and the id "PICT"; it is then the big-endian fields at their offsets |
| GraphicsPicLoad.ParseHeader | lib/djvGraphics/PICLoad.cpp:257-372 | an opened file's layout is the one its records describe, the pixel data starts after header and records within the file, magic and id are correct |
| GraphicsPicLoad.CompressionOfAcceptedFile | lib/djvGraphics/PICLoad.cpp:302-352 | an opened file's compression flags come from its own records' types; the second flag is touched only for the chained layout |
| GraphicsPicLoad.HostReadsBigEndian | lib/djvGraphics/PICLoad.cpp:263-266 | with the endian flag set on a least-significant-first host, every header word reads as its most-significant-first value |
| GraphicsPicLoad.GetWord | lib/djvGraphics/PICLoad.cpp:263-296 | one word is read as its big-endian value and the cursor advances, or a read error leaves it |
| GraphicsPicLoad.ReadChannel | lib/djvGraphics/PICLoad.cpp:237-243 | _channel reads the four record bytes in order, or fails with a read error |
| GraphicsPicLoad.ReadHeader | lib/djvGraphics/PICLoad.cpp:263-296 | the header read through FileIO is HeaderSpec of the mapping, leaving the cursor at byte 104 |
| GraphicsPicLoad.ReadFields | lib/djvGraphics/PICLoad.cpp:279-282 | width, height, ratio and fields are the big-endian words at bytes 92 to 101, or a read error when the file is shorter |
| GraphicsPicLoad.ChannelsSpec | lib/djvGraphics/PICLoad.cpp:302-364 | an accepted record list is the layout those records describe, the pixel data start right after them inside the file, and the image shape's row length is the layout's |
| GraphicsPicLoad.PicLoad.ReadChannels | lib/djvGraphics/PICLoad.cpp:302-353 | the channel reads give ChannelsSpec of the mapping, set each compression flag as its record is read, store the layout only on success and leave the cursor at the pixel data |
| GraphicsPicLoad.DecodeFrom | lib/djvGraphics/PICLoad.cpp:86-192 | the row loop keeps every row's length, leaves rows before its start alone, and a failure at row y leaves the rows after y untouched |
| GraphicsPicLoad.DecodeRows | lib/djvGraphics/PICLoad.cpp:86-192 | the in-place loop over the row buffer ends with exactly DecodeFrom's rows and outcome |
| GraphicsPicLoad.RawDecode | lib/djvGraphics/PICLoad.cpp:111-124 | an uncompressed RGB or RGBA image is the consecutive rows of the data after the records |
| GraphicsPicLoad.RawRgbARow | lib/djvGraphics/PICLoad.cpp:175-187 | an uncompressed RGB_A row copies the alpha plane to the start of the row, over the first width bytes of the colour data |
| GraphicsPicLoad.RawNeverOverruns | lib/djvGraphics/PICLoad.cpp:113-186 | with no plane compressed, passing the size check means no copy runs past the mapping |
| GraphicsPicLoad.RawCheckFails | lib/djvGraphics/PICLoad.cpp:114-120 | with the first plane raw, a failing size check is a read error at that row with nothing copied |
| GraphicsPicLoad.CheckPassesYetOverruns | lib/djvGraphics/PICLoad.cpp:94-186 | a 116-byte RGB_A file whose RGB plane is run-length coded passes the size check and then copies its alpha byte from past the end |
| GraphicsPicLoad.RawFileDecodes | lib/djvGraphics/PICLoad.cpp:86-124 | for any image shape whose row length is its layout's, uncompressed data that passes the size check decode completely from a zeroed buffer, to the consecutive rows for RGB and RGBA |
| GraphicsPicLoad.UncompressedFileDecodes | lib/djvGraphics/PICLoad.cpp:62-192 | an uncompressed file whose data passes the size check decodes completely, to the consecutive rows for RGB and RGBA |
| GraphicsPicLoad.PicLoad.OpenFile | lib/djvGraphics/PICLoad.cpp:257-372 | _open's result is OpenSpec of the file; it stores type and compression flags and leaves the cursor at the pixel data |
| GraphicsPicLoad.PicLoad.Open | lib/djvGraphics/PICLoad.cpp:49-60 | opens the sequence's first file and, for a sequence, reports its frames |
| GraphicsPicLoad.PicLoad.Read | lib/djvGraphics/PICLoad.cpp:62-204 | opens the frame's file (the start frame for -1) and decodes its rows from a zeroed buffer of the header's shape with rows mirrored |
| GraphicsJpegSave.SaveFormat | lib/djvGraphics/JPEGSave.cpp:63-74 | the stored format is 8-bit L for L and LA and 8-bit RGB otherwise |
| GraphicsJpegSave.SaveInfo | lib/djvGraphics/JPEGSave.cpp:61-74 | the stored shape keeps the input's size and has the stored format |
| GraphicsJpegSave.SaveFormatIdempotent | lib/djvGraphics/JPEGSave.cpp:63-74 | mapping a stored format again leaves it unchanged |
| GraphicsJpegSave.SaveFormatKeepsColour | lib/djvGraphics/JPEGSave.cpp:63-74 | the mapping drops exactly the alpha channel |
| GraphicsJpegSave.ComponentsOfSaveFormat | lib/djvGraphics/JPEGSave.cpp:190-199 | every stored format sets libjpeg's component count to its channel count, grayscale exactly for L |
| GraphicsJpegSave.CommentMarker | lib/djvGraphics/JPEGSave.cpp:203-211 | a COM marker is written exactly when the description tag is not empty, holding that description |
| GraphicsJpegSave.MirroredAlwaysConverts | lib/djvGraphics/JPEGSave.cpp:124-131 | an input with mirrored rows never matches the stored shape and is always converted |
| GraphicsJpegSave.StoredShapeNotConverted | lib/djvGraphics/JPEGSave.cpp:124-131 | an input of exactly the stored shape is written without conversion |
| GraphicsJpegSave.JpegSave.Open | lib/djvGraphics/JPEGSave.cpp:52-77 | records the file (a sequence when more than one frame), the stored shape, and a scratch image of that shape |
| GraphicsJpegSave.JpegSave.Close | lib/djvGraphics/JPEGSave.cpp:149-161 | releases the compressor and the file handle when held |
| GraphicsJpegSave.JpegSave.OpenFile | lib/djvGraphics/JPEGSave.cpp:176-251 | closes first; a failed init is a library error, a failed fopen an open error with the compressor held, a failed start a library error; any failure leaves no scanlines, an idle stage and no settings; success starts compression with the jpegOpen settings |
| GraphicsJpegSave.JpegSave.WriteScanlines | lib/djvGraphics/JPEGSave.cpp:134-141 | rows are handed to libjpeg bottom row first; a failing scanline stops the loop after the rows before it |
| GraphicsJpegSave.JpegSave.Write | lib/djvGraphics/JPEGSave.cpp:111-147 | opens the frame's file with the input's tags, converts unless the shape matches, writes the rows bottom-up, finishes and closes; each failure is reported with the state it leaves: a failed open leaves the image, no scanlines, an idle compressor and no settings, with init and the file handle as far as they got |
| ViewLibFileCache.WithoutWindow | lib/djvViewLib/FileGroup.cpp:823-827 | removing a window's items keeps exactly the other windows' items, unchanged |
| ViewLibFileCache.WithoutWindowOwnerScoped | lib/djvViewLib/FileGroup.cpp:823-827 | another window keeps every item, the window keeps none, and clearing twice is clearing once |
| ViewLibFileCache.FileCache.AddItem | lib/djvViewLib/FileGroup.cpp:362-366 | the image is cached under its key; any other item kept is unchanged |
| ViewLibFileCache.FileCache.ClearItems | lib/djvViewLib/FileGroup.cpp:826 | removes exactly the window's items |
| ViewLibFileGroup.ScanFrom | lib/djvViewLib/FileGroup.cpp:522-547 | a scan that decides to preload stops at an uncached frame, within the byte budget, before visiting every frame |
| ViewLibFileGroup.ScanAllCached | lib/djvViewLib/FileGroup.cpp:522-598 | when every frame of the sequence is cached the scan preloads nothing, so the timer is stopped |
| ViewLibFileGroup.ScanWrapsToFirst | lib/djvViewLib/FileGroup.cpp:531-537 | a cached last frame within the budget passes the scan on to frame 0 |
| ViewLibFileGroup.ScanStaysInRange | lib/djvViewLib/FileGroup.cpp:528-547 | a scan that starts at a valid index only ever stops at a valid index |
| ViewLibFileGroup.ScanFindsFirstUncached | lib/djvViewLib/FileGroup.cpp:522-547 | from a valid start, every frame passed (counting on with wrap-around) is cached; the scan stops at the next one; the byte total is the passed frames' sizes plus the estimate for an uncached stop; it preloads exactly when it stopped at an uncached frame within budget, and otherwise the budget was exceeded or every frame was cached |
| ViewLibFileGroup.ScanLeavesFrameList | lib/djvViewLib/FileGroup.cpp:522-565 | a preload frame past the end of the list, uncached and within budget, is chosen as it is, outside the list |
| ViewLibFileGroup.IntendedScanStaysInList | lib/djvViewLib/FileGroup.cpp:522-547 | a scan started at the wrapped preload frame only preloads frames inside the list, and agrees with the code's scan whenever the stored frame is already inside |
| ViewLibFileGroup.WrappedLayer | lib/djvViewLib/FileGroup.cpp:433-435 | the stored layer is inside the layer list, 0 for an empty list, and the request itself when already inside |
| ViewLibFileGroup.LayerStepWraps | lib/djvViewLib/FileGroup.cpp:747-755 | next after the last layer is the first, previous before the first is the last, otherwise one step |
| ViewLibFileGroup.U8Converted | lib/djvViewLib/FileGroup.cpp:337-350 | the 8-bit copy keeps the format, size and tags with 8-bit channels |
| ViewLibFileGroup.PreloadedImage | lib/djvViewLib/FileGroup.cpp:561-582 | a preloaded image is valid exactly when the read image is |
| ViewLibFileGroup.FileGroup.PreloadUpdate | lib/djvViewLib/FileGroup.cpp:786-803 | a timer runs exactly when cache, preload and preload-active are all on; a running timer is kept, a new one gets a fresh id |
| ViewLibFileGroup.FileGroup.CacheDel | lib/djvViewLib/FileGroup.cpp:823-827 | the window's cached frames are removed |
| ViewLibFileGroup.FileGroup.SetLayer | lib/djvViewLib/FileGroup.cpp:427-441 | an unchanged request does nothing; otherwise the layer is wrapped, the window's cache cleared and the timer updated |
| ViewLibFileGroup.FileGroup.LayerPrev | lib/djvViewLib/FileGroup.cpp:747-750 | requests the previous layer, wrapping |
| ViewLibFileGroup.FileGroup.LayerNext | lib/djvViewLib/FileGroup.cpp:752-755 | requests the next layer, wrapping |
| ViewLibFileGroup.FileGroup.SetProxy | lib/djvViewLib/FileGroup.cpp:443-454 | a change clears the window's cache and updates the timer; no change does nothing |
| ViewLibFileGroup.FileGroup.SetU8Conversion | lib/djvViewLib/FileGroup.cpp:456-465 | a change clears the window's cache and updates the timer; no change does nothing |
| ViewLibFileGroup.FileGroup.SetCacheEnabled | lib/djvViewLib/FileGroup.cpp:467-478 | a change clears the window's cache and updates the timer; no change does nothing |
| ViewLibFileGroup.FileGroup.SetPreload | lib/djvViewLib/FileGroup.cpp:480-489 | a change updates the timer and leaves the cache alone |
| ViewLibFileGroup.FileGroup.SetPreloadActive | lib/djvViewLib/FileGroup.cpp:491-500 | a change updates the timer and leaves the cache alone |
| ViewLibFileGroup.FileGroup.SetPreloadFrame | lib/djvViewLib/FileGroup.cpp:502-509 | a change updates the timer and leaves the cache alone |
| ViewLibFileGroup.FileGroup.GetImage | lib/djvViewLib/FileGroup.cpp:299-369 | a hit returns the cached image; a miss with a loader reads frames[frame] (or -1) and converts when asked, keeping the image even after a failed read; a present image is cached when caching is on; a frame outside a non-empty list is reported as OutsideList with nothing changed |
| ViewLibFileGroup.FileGroup.TimerEvent | lib/djvViewLib/FileGroup.cpp:511-599 | the loop ends where ScanFrom does; a preload reads that frame and caches the result only when valid; otherwise the timer is stopped; a chosen frame outside the list is reported as OutsideList with nothing changed |
| ViewLibFileGroup.FileGroup.Open | lib/djvViewLib/FileGroup.cpp:381-425 | clears the window's cache and forgets the file; a named file that loads becomes current; layer 0, the layer names in order, timer updated |
| ViewLibFileExport.SaveSequence | lib/djvViewLib/FileExport.cpp:120-131 | with a valid output sequence, the input's count of frames from the output's first frame with the input's pad and speed; otherwise the input sequence |
| ViewLibFileExport.FrameAt | lib/djvViewLib/FileExport.cpp:226-281 | progress index i maps to frames[i], or -1 past the end |
| ViewLibFileExport.ProgressLength | lib/djvViewLib/FileExport.cpp:179 | the progress run has one step per frame, one step for a file without frames |
| ViewLibFileExport.WrittenImage | lib/djvViewLib/FileExport.cpp:242-281 | the saver gets tmp: the converted pixels of the export shape only when the copy ran, no pixels otherwise, the read image's tags always |
| ViewLibFileExport.OutputFramesRenumbered | lib/djvViewLib/FileExport.cpp:120-127 | with a valid output sequence, index i writes the output's first frame + i, and -1 past the input's count (the write also at lines 280-281) |
| ViewLibFileExport.FramesKeptWithoutOutputSequence | lib/djvViewLib/FileExport.cpp:128-131 | without an output sequence each index reads (line 226) and writes (lines 280-281) the same frame number |
| ViewLibFileExport.CloseFollowsLastFrame | lib/djvViewLib/FileExport.cpp:292-306 | the close comes after writing the save sequence's last frame, the output's first + count - 1 |
| ViewLibFileExport.UnconvertedFrameWritesNoPixels | lib/djvViewLib/FileExport.cpp:253-281 | a frame already of the export shape with default options is written as an image with no pixels and the tags |
| ViewLibFileExport.FileExport.Cancel | lib/djvViewLib/FileExport.cpp:183-209 | hides the dialog, closes a present saver, and forgets the export, loader and saver; the save sequence is kept |
| ViewLibFileExport.FileExport.Start | lib/djvViewLib/FileExport.cpp:110-181 | cancels first, records the save sequence, opens loader then saver (with the loader's tags and the save sequence); either failure stops before the progress run, of ProgressLength steps |
| ViewLibFileExport.FileExport.Callback | lib/djvViewLib/FileExport.cpp:211-307 | reads FrameAt(sequence, i), converts when needed, writes tmp as FrameAt(saveSequence, i), closes after the last index; a write error cancels and a read or conversion error cancels before writing, hiding the dialog and dropping the saver; a successful write leaves the dialog and saver as they were |
| ViewLibFileExport.FileExport.FinishedCallback | lib/djvViewLib/FileExport.cpp:309-325 | closes the saver when the progress run finishes |

## Findings

| source | as written | input that shows it | evidently intended | confidence | as-written member | corrected member |
|---|---|---|---|---|---|---|
| lib/djvViewLib/FileGroup.cpp:522-565 | the preload scan starts at the stored preload frame without wrapping it into the frame list, and then reads `frames[frame]` with that index | a 10-frame sequence, preload frame 20 (it can be set to any value), nothing cached, estimate within budget: frame 20 is chosen and `frames[20]` is read | the scan starts at the preload frame wrapped into the list, so it only ever chooses a frame of the list | not executed | ViewLibFileGroup.ScanLeavesFrameList | ViewLibFileGroup.IntendedScanStaysInList |

`FileGroup.TimerEvent` keeps the code's scan. When the frame it chooses lies outside the list, it reports `OutsideList`; `ViewLibFileGroup.IntendedPreloadScan` is the corrected scan.

## Left out

- FileIO's operating-system calls are left out: the Windows and POSIX handle calls, `mmap`/`munmap` and `readAhead`. Their outcomes are parameters. A WRITE-mode `lseek` is taken to succeed.
- FileIO's non-mmap read path is left out. It ignores short reads, so a read there can return fewer bytes than asked for.
- FileIO.Set: a write is modelled as all or nothing. The code rejects only a `::write` result of -1, so a short write counts as complete there.
- FileIO.h is not part of this model. `READ` is taken to be the mode value 0 that `close` restores.
- FileIO sizes and positions are unbounded naturals. `quint64` overflow is not modelled.
- `PICLoad::read` proxy scaling (`PixelDataUtil::proxyScale`) is not modelled. The model decodes at full size.
- `PIC::readRle` is not part of this model. It is a parameter that may fail and keeps the row length. When it fails, the model leaves that row as it was before the call. Whatever the real decoder wrote into the row before failing is not modelled.
- PicLoad.Read: the buffer `PixelData::set` allocates is taken to be zeroed, so decoding starts from all-zero rows. Bytes 3w to 4w of a raw RGB_A row, the part of a failing row its decoder did not reach, and every row after a failing row are left at those zeros. In the code they hold whatever the allocation held.
- CoreSequence.ToLongLong accepts optional sign and decimal digits only. `QString::toLongLong` also skips leading and trailing white space; the model rejects a token that has it.
- GraphicsPixel.ChannelType has no `U10` member. Pixel.h is not part of this model, and none of the modelled files names 10-bit channels, so the model keeps only the U8, U16, F16 and F32 types they use.
- The PIC header's float fields (version, ratio) are kept as opaque 4-byte words.
- Partly filled `ImageIOInfo` values are not modelled. This covers a PIC `_open` that throws and a codec registry load that throws in `FileGroup::open`. The model returns the error alone.
- `OpenGLImage::copy` conversions are not modelled. Their pixels are parameters, in FileGroup, JPEGSave and FileExport alike.
- The bounding-box and transform arithmetic of `FileExport::start` is floating point. The export size it produces is a parameter.
- OpenGL image options are not modelled. Whether a frame's options equal the defaults is a parameter.
- libjpeg's `setjmp` error handling and encoder state are not modelled. Each step's success is a parameter.
- The JPEG COM marker's wide-string payload is not modelled. The marker is modelled as the description text.
- JpegSave.OpenFile: in the state a failed `jpegOpen` leaves, only init and the file handle are modelled, not the libjpeg internals.
- FileCache.cpp is not part of this model, so eviction and budget accounting are left out. The current byte total is not tracked.
- FileCache.AddItem: its contract allows other items to be dropped but does not say which, since FileCache.cpp is not modelled, so the eviction policy is unknown.
- FileGroup: Qt menus, actions, `update()`, the recent-files list, `openCallback` and the other callbacks are left out. So are the message dialogs and the copy constructor's inherited settings. The constructor is modelled for a group that copies nothing.
- FileGroup.Open checks the file name with `Path`, taking `FileInfo::fileName` to be empty exactly when base and extension are. FileInfo.cpp is not part of this model.
- FileGroup.GetImage and FileGroup.TimerEvent: when the frame to read lies outside a non-empty frame list, the code reads past the list. The model returns the outcome `OutsideList` with that index and changes nothing else.
- FileGroup's timer ids come from a counter. Qt's `startTimer` and `killTimer` are not modelled.
- FileGroup byte counts are unbounded, so `quint64` overflow in the preload scan is not modelled.
- FileExport: the progress dialog's own signalling is left out. Only its visibility and the length it was started with are kept. Error printing is left out too.
- SaveSequence is modelled on the frame range `first .. first + count - 1` built by the `Sequence(start, end)` constructor. The body of `Sequence(start, end)` is not modelled. When the input has no frames, the model takes the range to be empty.
- The destructors of FileGroup, FileExport, JPEGSave and PICLoad are not modelled.
