/** djv::Core::FileIO with the memory-mapped read backend: a file opened for
    reading is a mapped window of bytes with a cursor (mmapP); a file opened
    for writing grows as bytes are set. Calls into the operating system are
    parameters: what `open` finds, whether mapping and writing succeed. */
module CoreFileIO {
  import opened CoreErrors
  import opened CoreMemory
  import opened CoreMath

  /** FileIO::MODE. READ is value 0, the mode close() restores. */
  datatype Mode = Read | Write

  /** The bytes `get` hands to the caller for `count` words of `wordSize` bytes
      at `cursor` in the mapping, or the read error when they run past its end. */
  function GetSpec(mapping: seq<byte>, cursor: nat, count: nat, wordSize: nat, endian: bool): (r: Result<seq<byte>>)
    requires wordSize > 0
    ensures r.Ok? <==> cursor + count * wordSize <= |mapping|
    ensures r.Err? ==> r.error == ReadError
    ensures r.Ok? ==> |r.value| == count * wordSize
  {
    var n := count * wordSize;
    if cursor + n > |mapping| then Err(ReadError)
    else
      var raw := mapping[cursor .. cursor + n];
      WordsAligned(count, wordSize);
      if endian && wordSize > 1 then Ok(ConvertEndian(raw, wordSize)) else Ok(raw)
  }

  /** The bytes `set` hands to the operating system: a swapped scratch copy when
      the endian flag is on and words are wider than a byte, else the caller's bytes. */
  function SetBytes(data: seq<byte>, count: nat, wordSize: nat, endian: bool): (r: seq<byte>)
    requires wordSize > 0 && |data| == count * wordSize
    ensures |r| == |data|
  {
    WordsAligned(count, wordSize);
    if endian && wordSize > 1 then ConvertEndian(data, wordSize) else data
  }

  /** A file after `bytes` are written at offset `at`: they land there, the
      bytes around them are kept, and a gap past the old end reads as zeros. */
  function WriteAt(file: seq<byte>, at: nat, bytes: seq<byte>): (r: seq<byte>)
    ensures |r| == Max(|file|, at + |bytes|)
    ensures r[at .. at + |bytes|] == bytes
    ensures forall i :: 0 <= i < |file| && !(at <= i < at + |bytes|) ==> r[i] == file[i]
    ensures forall i :: |file| <= i < at ==> r[i] == 0
  {
    var head := if at <= |file| then file[..at] else file + seq(at - |file|, _ => 0 as byte);
    var tail := if at + |bytes| < |file| then file[at + |bytes|..] else [];
    head + bytes + tail
  }

  /** get passes bytes through unchanged unless the endian flag is on and the
      words are wider than a byte. */
  lemma GetPassesThrough(mapping: seq<byte>, cursor: nat, count: nat, wordSize: nat, endian: bool)
    requires wordSize > 0 && cursor + count * wordSize <= |mapping|
    requires !endian || wordSize == 1
    ensures GetSpec(mapping, cursor, count, wordSize, endian) == Ok(mapping[cursor .. cursor + count * wordSize])
  {
  }

  /** With the endian flag on, byte j of word k that get returns is byte
      wordSize - 1 - j of that word in the file. */
  lemma GetSwapsWords(mapping: seq<byte>, cursor: nat, count: nat, wordSize: nat, k: nat, j: nat)
    requires wordSize > 1 && cursor + count * wordSize <= |mapping|
    requires k < count && j < wordSize
    ensures var r := GetSpec(mapping, cursor, count, wordSize, true);
            r.Ok? && k * wordSize + wordSize <= |r.value| &&
            r.value[k * wordSize + j] == mapping[cursor + k * wordSize + (wordSize - 1 - j)]
  {
    var n := count * wordSize;
    var off := k * wordSize;
    WordInside(k, count, wordSize);
    var raw := mapping[cursor .. cursor + n];
    WordsAligned(count, wordSize);
    WordsAligned(k, wordSize);
    ConvertEndianAt(raw, wordSize, off, j);
    assert raw[off + (wordSize - 1 - j)] == mapping[cursor + off + (wordSize - 1 - j)];
  }

  /** Writing with some endian flag and reading the same words back with the same
      flag gives the caller's original bytes. */
  lemma SetThenGet(file: seq<byte>, at: nat, data: seq<byte>, count: nat, wordSize: nat, endian: bool)
    requires wordSize > 0 && |data| == count * wordSize
    ensures GetSpec(WriteAt(file, at, SetBytes(data, count, wordSize, endian)), at, count, wordSize, endian) == Ok(data)
  {
    var out := SetBytes(data, count, wordSize, endian);
    var f := WriteAt(file, at, out);
    assert f[at .. at + count * wordSize] == out;
    WordsAligned(count, wordSize);
    if endian && wordSize > 1 {
      ConvertEndianInvolution(data, wordSize);
    }
  }

  class FileIO {
    var handleOpen: bool    // the handle f is open
    var fileName: string
    var mode: Mode
    var pos: nat
    var size: nat
    var endian: bool
    var mapping: seq<byte>  // the bytes from mmapStart to mmapEnd; [] when nothing is mapped
    var cursor: nat         // mmapP - mmapStart
    var written: seq<byte>  // the contents of the file last opened for writing

    /** The readable window is the mapping; while reading, pos never passes its
        end and agrees with the cursor whenever the cursor is inside it. */
    ghost predicate Valid()
      reads this
    {
      (mapping != [] ==> handleOpen && mode == Read && |mapping| == size) &&
      (mode == Read ==> pos <= |mapping| && (cursor <= |mapping| ==> cursor == pos)) &&
      (mode == Write ==> handleOpen && mapping == [] && cursor == 0 && |written| == size) &&
      (!handleOpen ==> size == 0 && fileName == [])
    }

    constructor ()
      ensures Valid()
      ensures !handleOpen && fileName == [] && mode == Read && pos == 0 && size == 0
      ensures !endian && mapping == [] && cursor == 0 && written == []
    {
      handleOpen, fileName, mode, pos, size := false, [], Read, 0, 0;
      endian, mapping, cursor, written := false, [], 0, [];
    }

    /** isValid: a handle is open and, for a non-empty file, pos is before its end. */
    function IsValid(): bool
      reads this
    {
      handleOpen && (size == 0 || pos < size)
    }

    /** Reading a mapped file, isValid holds exactly when another byte can be read. */
    lemma IsValidMeansByteAvailable()
      requires Valid() && mode == Read && mapping != [] && cursor <= |mapping|
      ensures IsValid() <==> GetSpec(mapping, cursor, 1, 1, endian).Ok?
    {
    }

    method SetEndian(value: bool)
      modifies this`endian
      ensures endian == value
    {
      endian := value;
    }

    /** close: unmap, close the handle, and reset pos, size, mode and the name.
        Safe to call on a closed file. */
    method Close()
      requires Valid()
      modifies this
      ensures Valid()
      ensures !handleOpen && fileName == [] && mode == Read && pos == 0 && size == 0
      ensures mapping == [] && cursor == 0
      ensures endian == old(endian) && written == old(written)
    {
      mapping, cursor := [], 0;
      fileName := [];
      handleOpen := false;
      pos, size, mode := 0, 0, Read;
    }

    /** open: close any previous file, open `name` (`os` is what the operating
        system finds, None when it refuses), set pos to 0, record the size and the
        mode, and in READ mode map a non-empty file (`mapOk` says whether mapping
        succeeds). A file opened for writing is truncated. */
    method Open(name: string, m: Mode, os: Option<seq<byte>>, mapOk: bool) returns (r: Outcome)
      requires Valid()
      modifies this
      ensures Valid() && endian == old(endian) && cursor == 0 && pos == 0
      ensures os.None? ==>
        r == Fail(OpenError) && !handleOpen && fileName == [] && mode == Read && size == 0 &&
        mapping == [] && written == old(written)
      ensures os.Some? ==> handleOpen && fileName == name && mode == m
      ensures os.Some? && m == Write ==> r == Pass && size == 0 && mapping == [] && written == []
      ensures os.Some? && m == Read ==>
        size == |os.value| && written == old(written) &&
        if |os.value| > 0 && !mapOk then r == Fail(MapError) && mapping == []
        else r == Pass && mapping == os.value
    {
      Close();
      if os.None? {
        return Fail(OpenError);
      }
      handleOpen := true;
      fileName := name;
      pos := 0;
      size := if m == Write then 0 else |os.value|;
      mode := m;
      if m == Write {
        written := [];
      }
      r := Pass;
      if mode == Read && size > 0 {
        if !mapOk {
          return Fail(MapError);
        }
        mapping := os.value;
        cursor := 0;
      }
    }

    /** get: copy `count` words of `wordSize` bytes from the cursor, swapping the
        bytes of each word when the endian flag is on, and advance the cursor and
        pos by `count * wordSize`; a read past the end of the mapping raises a read
        error and moves nothing. */
    method Get(count: nat, wordSize: nat) returns (r: Result<seq<byte>>)
      requires Valid() && wordSize > 0
      modifies this`cursor, this`pos
      ensures Valid()
      ensures r == GetSpec(mapping, old(cursor), count, wordSize, endian)
      ensures r.Ok? ==> cursor == old(cursor) + count * wordSize && pos == old(pos) + count * wordSize
      ensures r.Err? ==> cursor == old(cursor) && pos == old(pos)
    {
      var n := count * wordSize;
      if cursor + n > |mapping| {
        return Err(ReadError);
      }
      var raw := mapping[cursor .. cursor + n];
      WordsAligned(count, wordSize);
      if endian && wordSize > 1 {
        r := Ok(ConvertEndian(raw, wordSize));
      } else {
        r := Ok(raw);
      }
      cursor := cursor + n;
      pos := pos + n;
    }

    /** set: write `count` words of `wordSize` bytes at pos (through a swapped
        scratch copy when the endian flag is on), advance pos, and make size the
        larger of pos and size. A failing write (`writeOk` false, or a handle not
        open for writing) raises a write error and changes nothing. */
    method Set(data: seq<byte>, count: nat, wordSize: nat, writeOk: bool) returns (r: Outcome)
      requires Valid() && wordSize > 0 && |data| == count * wordSize
      modifies this`pos, this`size, this`written
      ensures Valid()
      ensures handleOpen && mode == Write && writeOk ==>
        r == Pass && pos == old(pos) + count * wordSize && size == Max(pos, old(size)) &&
        written == WriteAt(old(written), old(pos), SetBytes(data, count, wordSize, endian))
      ensures !(handleOpen && mode == Write && writeOk) ==>
        r == Fail(WriteError) && pos == old(pos) && size == old(size) && written == old(written)
    {
      var out := SetBytes(data, count, wordSize, endian);
      if !(handleOpen && mode == Write && writeOk) {
        return Fail(WriteError);
      }
      written := WriteAt(written, pos, out);
      pos := pos + count * wordSize;
      size := Max(pos, size);
      r := Pass;
    }

    /** setPos(offset, seek): an absolute (seek false) or relative (seek true)
        reposition. In READ mode the cursor moves first; a cursor past the end of
        the mapping raises a set-position error and pos keeps its old value. */
    method SetPos(offset: nat, seek: bool) returns (r: Outcome)
      requires Valid()
      modifies this`pos, this`cursor
      ensures Valid()
      ensures mode == Read ==>
        cursor == (if seek then old(cursor) + offset else offset) &&
        if cursor > |mapping| then r == Fail(SetPosError) && pos == old(pos)
        else r == Pass && pos == (if seek then old(pos) + offset else offset)
      ensures mode == Write ==>
        r == Pass && cursor == old(cursor) && pos == (if seek then old(pos) + offset else offset)
    {
      if mode == Read {
        cursor := if seek then cursor + offset else offset;
        if cursor > |mapping| {
          return Fail(SetPosError);
        }
      }
      pos := if seek then pos + offset else offset;
      r := Pass;
    }
  }
}
