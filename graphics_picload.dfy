/** djv::Graphics::PICLoad, the Softimage PIC reader: the header and channel
    records are read through FileIO and classified into one of three layouts;
    the pixel rows are then decoded from the mapped bytes, run-length encoded or
    raw. The run-length decoder (PIC::readRle) is a parameter. */
module GraphicsPicLoad {
  import opened CoreErrors
  import opened CoreMemory
  import opened CoreSequence
  import opened CoreFileInfo
  import opened CoreFileIO
  import opened GraphicsPixel

  const MAGIC: nat := 0x5380F634

  /** The identifier "PICT" in Latin-1. */
  const PICT: seq<byte> := [0x50, 0x49, 0x43, 0x54]

  /** magic, version, comment[80], id[4], width, height, ratio, fields, pad[2]. */
  const HEADER_BYTES: nat := 104

  const CHANNEL_BYTES: nat := 4

  /** The compression type of a run-length encoded channel record. */
  const RLE_TYPE: byte := 2

  datatype PicType = TypeRgb | TypeRgba | TypeRgbA

  datatype Header = Header(
    magic: nat,
    version: nat,        // the bit pattern of the 32-bit float
    comment: seq<byte>,
    id: seq<byte>,
    width: nat,
    height: nat,
    ratio: nat,          // the bit pattern of the 32-bit float
    fields: nat)

  datatype Channel = Channel(chained: byte, size: byte, kind: byte, channel: byte)

  datatype Color = R | G | B | A

  /** CHANNEL_R, CHANNEL_G, CHANNEL_B, CHANNEL_A */
  function Mask(c: Color): nat
  {
    match c
    case R => 0x80
    case G => 0x40
    case B => 0x20
    case A => 0x10
  }

  /** `mask & bits` is non-zero for a one-bit mask. */
  predicate HasColor(bits: byte, c: Color)
  {
    (bits as nat / Mask(c)) % 2 == 1
  }

  /** The colours a channel record carries. */
  function Colors(bits: byte): set<Color>
  {
    set c | c in {R, G, B, A} && HasColor(bits, c)
  }

  predicate HasRgb(c: Channel)
  {
    HasColor(c.channel, R) && HasColor(c.channel, G) && HasColor(c.channel, B)
  }

  /** What the first channel record decides. */
  datatype FirstChannel = Layout(picType: PicType) | Chained | Rejected

  function ClassifyFirst(c: Channel): FirstChannel
  {
    if HasRgb(c) && HasColor(c.channel, A) && c.size == 8 && c.chained == 0 then Layout(TypeRgba)
    else if HasRgb(c) && c.size == 8 && c.chained == 0 then Layout(TypeRgb)
    else if HasRgb(c) && c.size == 8 then Chained
    else Rejected
  }

  /** The record that must follow a chained RGB record. */
  predicate IsAlphaOnly(c: Channel)
  {
    !HasColor(c.channel, R) && !HasColor(c.channel, G) && !HasColor(c.channel, B) &&
    HasColor(c.channel, A) && c.size == 8 && c.chained == 0
  }

  /** The layouts the reader accepts, stated on the colour sets of the records:
      one 8-bit unchained RGBA or RGB record, or an 8-bit chained record holding
      at least RGB followed by an 8-bit unchained alpha-only record. */
  function AcceptedLayout(records: seq<Channel>): Option<PicType>
  {
    if |records| == 1 && records[0].size == 8 && records[0].chained == 0 && Colors(records[0].channel) == {R, G, B, A} then Some(TypeRgba)
    else if |records| == 1 && records[0].size == 8 && records[0].chained == 0 && Colors(records[0].channel) == {R, G, B} then Some(TypeRgb)
    else if |records| == 2 && records[0].size == 8 && records[0].chained != 0 && {R, G, B} <= Colors(records[0].channel) &&
            records[1].size == 8 && records[1].chained == 0 && Colors(records[1].channel) == {A} then Some(TypeRgbA)
    else None
  }

  /** The bit tests of the reader agree with the colour sets of the layouts. */
  lemma ClassifyByColors(c: Channel)
    ensures ClassifyFirst(c) == Layout(TypeRgba) <==> AcceptedLayout([c]) == Some(TypeRgba)
    ensures ClassifyFirst(c) == Layout(TypeRgb) <==> AcceptedLayout([c]) == Some(TypeRgb)
    ensures ClassifyFirst(c) == Chained <==> c.size == 8 && c.chained != 0 && {R, G, B} <= Colors(c.channel)
  {
    var s := Colors(c.channel);
    assert R in s <==> HasColor(c.channel, R);
    assert G in s <==> HasColor(c.channel, G);
    assert B in s <==> HasColor(c.channel, B);
    assert A in s <==> HasColor(c.channel, A);
    if HasRgb(c) && HasColor(c.channel, A) {
      assert s == {R, G, B, A};
    } else if HasRgb(c) {
      assert s == {R, G, B};
    }
  }

  lemma AlphaOnlyByColors(c: Channel)
    ensures IsAlphaOnly(c) <==> c.size == 8 && c.chained == 0 && Colors(c.channel) == {A}
  {
    var s := Colors(c.channel);
    assert R in s <==> HasColor(c.channel, R);
    assert G in s <==> HasColor(c.channel, G);
    assert B in s <==> HasColor(c.channel, B);
    assert A in s <==> HasColor(c.channel, A);
    if IsAlphaOnly(c) {
      assert s == {A};
    }
  }

  /** The channel record at byte offset `at`. */
  function ChannelAt(m: seq<byte>, at: nat): Channel
    requires at + CHANNEL_BYTES <= |m|
  {
    Channel(m[at], m[at + 1], m[at + 2], m[at + 3])
  }

  /** The header fields, every word read most significant byte first. */
  function HeaderAt(m: seq<byte>): Header
    requires |m| >= HEADER_BYTES
  {
    Header(BigEndian(m[0..4]), BigEndian(m[4..8]), m[8..88], m[88..92],
      BigEndian(m[92..94]), BigEndian(m[94..96]), BigEndian(m[96..100]), BigEndian(m[100..102]))
  }

  /** QString::fromLatin1: one character per byte. */
  function Latin1(b: seq<byte>): (s: string)
    ensures |s| == |b|
    ensures forall i :: 0 <= i < |b| ==> s[i] as int == b[i] as int
  {
    seq(|b|, i requires 0 <= i < |b| => b[i] as int as char)
  }

  /** The description tag holds the whole comment when its first byte is not zero. */
  function PicTags(comment: seq<byte>): (t: Tags)
    requires |comment| > 0
    ensures DESCRIPTION in t <==> comment[0] != 0
    ensures DESCRIPTION in t ==> t[DESCRIPTION] == Latin1(comment)
    ensures forall k :: k in t ==> k == DESCRIPTION
  {
    if comment[0] != 0 then map[DESCRIPTION := Latin1(comment)] else map[]
  }

  /** The image information _open fills in. */
  function PicInfo(h: Header, t: PicType): ImageIOInfo
    requires |h.comment| > 0
  {
    ImageIOInfo(
      PixelDataInfo("", h.width, h.height, if t == TypeRgb then RGB_U8 else RGBA_U8, true, 0),
      [], EMPTY_SEQUENCE, PicTags(h.comment))
  }

  /** What _open learns from a file: the header, the layout, the channel records
      read, the image information and where the pixel data start. */
  datatype PicFile = PicFile(header: Header, picType: PicType, records: seq<Channel>, info: ImageIOInfo, dataStart: nat)

  /** The fixed header of the mapped bytes `m`: where the magic number, the
      field reads, the seek over the padding or the id check fail. */
  function HeaderSpec(m: seq<byte>): (r: Result<Header>)
    ensures r.Ok? ==> |m| >= HEADER_BYTES && r.value == HeaderAt(m)
    ensures r.Ok? ==> r.value.magic == MAGIC && r.value.id == PICT
  {
    if |m| < 4 then Err(ReadError)
    else if BigEndian(m[0..4]) != MAGIC then Err(Unsupported)
    else if |m| < 102 then Err(ReadError)
    else if |m| < HEADER_BYTES then Err(SetPosError)
    else if m[88..92] != PICT then Err(Unsupported)
    else Ok(HeaderAt(m))
  }

  /** The channel records of _open after header `h`: the first record, and a
      second one when the first is chained; a record that cannot be read or a
      layout that is not accepted fails. */
  function ChannelsSpec(m: seq<byte>, h: Header): (r: Result<PicFile>)
    requires |h.comment| > 0
    ensures r.Ok? ==> AcceptedLayout(r.value.records) == Some(r.value.picType)
    ensures r.Ok? ==> r.value.dataStart == HEADER_BYTES + CHANNEL_BYTES * |r.value.records| <= |m|
    ensures r.Ok? ==> r.value.header == h && r.value.info == PicInfo(h, r.value.picType)
    ensures r.Ok? ==> RowByteCount(r.value.info.info) == RowBytes(r.value.picType, r.value.info.info.width)
  {
    if |m| < HEADER_BYTES + CHANNEL_BYTES then Err(ReadError)
    else
      var c1 := ChannelAt(m, HEADER_BYTES);
      ClassifyByColors(c1);
      match ClassifyFirst(c1)
      case Layout(t) => Ok(PicFile(h, t, [c1], PicInfo(h, t), HEADER_BYTES + CHANNEL_BYTES))
      case Rejected => Err(Unsupported)
      case Chained =>
        if |m| < HEADER_BYTES + 2 * CHANNEL_BYTES then Err(ReadError)
        else
          var c2 := ChannelAt(m, HEADER_BYTES + CHANNEL_BYTES);
          AlphaOnlyByColors(c2);
          if IsAlphaOnly(c2) then Ok(PicFile(h, TypeRgbA, [c1, c2], PicInfo(h, TypeRgbA), HEADER_BYTES + 2 * CHANNEL_BYTES))
          else Err(Unsupported)
  }

  /** _open on the mapped bytes `m`: each step fails where the matching FileIO
      call or check of the reader fails. */
  function ParseHeader(m: seq<byte>): (r: Result<PicFile>)
    ensures r.Ok? ==> AcceptedLayout(r.value.records) == Some(r.value.picType)
    ensures r.Ok? ==> r.value.dataStart == HEADER_BYTES + CHANNEL_BYTES * |r.value.records| <= |m|
    ensures r.Ok? ==> BigEndian(m[0..4]) == MAGIC && m[88..92] == PICT
    ensures r.Ok? ==> RowByteCount(r.value.info.info) == RowBytes(r.value.picType, r.value.info.info.width)
  {
    match HeaderSpec(m)
    case Err(e) => Err(e)
    case Ok(h) => ChannelsSpec(m, h)
  }

  /** What FileIO::open in READ mode leaves readable: the bytes the operating
      system found (`os`, None when it refuses) if a non-empty file maps. */
  function Mapped(os: Option<seq<byte>>, mapOk: bool): Result<seq<byte>>
  {
    if os.None? then Err(OpenError)
    else if |os.value| > 0 && !mapOk then Err(MapError)
    else Ok(os.value)
  }

  function OpenSpec(os: Option<seq<byte>>, mapOk: bool): Result<PicFile>
  {
    match Mapped(os, mapOk)
    case Err(e) => Err(e)
    case Ok(m) => ParseHeader(m)
  }

  /** _compression after the channel reads of _open: each flag is set as soon
      as its record is read, whether or not the layout is then accepted. */
  function ChannelFlags(before: seq<bool>, m: seq<byte>): (r: seq<bool>)
    requires |before| == 2
    ensures |r| == 2
  {
    if |m| < HEADER_BYTES + CHANNEL_BYTES then before
    else
      var c1 := ChannelAt(m, HEADER_BYTES);
      var first := before[0 := c1.kind == RLE_TYPE];
      if ClassifyFirst(c1) == Chained && |m| >= HEADER_BYTES + 2 * CHANNEL_BYTES then
        first[1 := ChannelAt(m, HEADER_BYTES + CHANNEL_BYTES).kind == RLE_TYPE]
      else first
  }

  /** _compression after _open: unchanged unless the file maps and its header
      passes. */
  function CompressionAfter(before: seq<bool>, os: Option<seq<byte>>, mapOk: bool): (r: seq<bool>)
    requires |before| == 2
    ensures |r| == 2
  {
    match Mapped(os, mapOk)
    case Err(_) => before
    case Ok(m) => if HeaderSpec(m).Ok? then ChannelFlags(before, m) else before
  }

  /** A file that opens has its flags taken from its own records. */
  lemma CompressionOfAcceptedFile(before: seq<bool>, os: Option<seq<byte>>, mapOk: bool)
    requires |before| == 2 && OpenSpec(os, mapOk).Ok?
    ensures var f := OpenSpec(os, mapOk).value;
            var c := CompressionAfter(before, os, mapOk);
            c[0] == (f.records[0].kind == RLE_TYPE) &&
            (f.picType == TypeRgbA ==> c[1] == (f.records[1].kind == RLE_TYPE)) &&
            (f.picType != TypeRgbA ==> c[1] == before[1])
  {
    var m := os.value;
    var c1 := ChannelAt(m, HEADER_BYTES);
    ClassifyByColors(c1);
  }

  /** A host of either byte order, with the endian flag set when it is not MSB
      first, reads the most-significant-byte-first value of a file word. */
  lemma HostReadsBigEndian(m: seq<byte>, cursor: nat, wordSize: nat, hostMsb: bool)
    requires 0 < wordSize && cursor + wordSize <= |m|
    ensures var r := GetSpec(m, cursor, 1, wordSize, !hostMsb);
            r.Ok? && NativeValue(r.value, hostMsb) == BigEndian(m[cursor .. cursor + wordSize])
  {
    var raw := m[cursor .. cursor + wordSize];
    if !hostMsb {
      if wordSize > 1 {
        ConvertEndianOneWord(raw);
        LittleEndianOfReverse(raw);
      } else {
        assert GetSpec(m, cursor, 1, wordSize, true) == Ok(raw);
        assert raw[..0] == [] && raw[1..] == [];
        assert LittleEndian(raw) == raw[0] as nat;
        assert BigEndian(raw) == raw[0] as nat;
      }
    }
  }

  /** getU8/getU16/getU32/getF32: one word, as the host sees it. */
  method GetWord(io: FileIO, wordSize: nat, hostMsb: bool) returns (r: Result<nat>)
    requires io.Valid() && io.endian == !hostMsb && 0 < wordSize
    modifies io`cursor, io`pos
    ensures io.Valid()
    ensures old(io.cursor) + wordSize <= |io.mapping| ==>
      r == Ok(BigEndian(io.mapping[old(io.cursor) .. old(io.cursor) + wordSize])) &&
      io.cursor == old(io.cursor) + wordSize && io.pos == old(io.pos) + wordSize
    ensures old(io.cursor) + wordSize > |io.mapping| ==> r == Err(ReadError)
  {
    var b := io.Get(1, wordSize);
    if b.Err? {
      return Err(b.error);
    }
    HostReadsBigEndian(io.mapping, old(io.cursor), wordSize, hostMsb);
    r := Ok(NativeValue(b.value, hostMsb));
  }

  /** get(buffer, n): n single bytes, never swapped. */
  method GetBytes(io: FileIO, n: nat) returns (r: Result<seq<byte>>)
    requires io.Valid()
    modifies io`cursor, io`pos
    ensures io.Valid()
    ensures old(io.cursor) + n <= |io.mapping| ==>
      r == Ok(io.mapping[old(io.cursor) .. old(io.cursor) + n]) &&
      io.cursor == old(io.cursor) + n && io.pos == old(io.pos) + n
    ensures old(io.cursor) + n > |io.mapping| ==> r == Err(ReadError) && io.cursor == old(io.cursor)
  {
    r := io.Get(n, 1);
  }

  /** One getU8 call. */
  method GetByte(io: FileIO) returns (r: Result<byte>)
    requires io.Valid()
    modifies io`cursor, io`pos
    ensures io.Valid()
    ensures old(io.cursor) < |io.mapping| ==>
      r == Ok(io.mapping[old(io.cursor)]) && io.cursor == old(io.cursor) + 1 && io.pos == old(io.pos) + 1
    ensures old(io.cursor) >= |io.mapping| ==> r == Err(ReadError) && io.cursor == old(io.cursor)
  {
    var b := GetBytes(io, 1);
    if b.Err? {
      return Err(b.error);
    }
    r := Ok(b.value[0]);
  }

  /** _channel: four single-byte reads. */
  method ReadChannel(io: FileIO) returns (r: Result<Channel>)
    requires io.Valid()
    modifies io`cursor, io`pos
    ensures io.Valid()
    ensures old(io.cursor) + CHANNEL_BYTES <= |io.mapping| ==>
      r == Ok(ChannelAt(io.mapping, old(io.cursor))) &&
      io.cursor == old(io.cursor) + CHANNEL_BYTES && io.pos == old(io.pos) + CHANNEL_BYTES
    ensures old(io.cursor) + CHANNEL_BYTES > |io.mapping| ==> r == Err(ReadError)
  {
    var chained :- GetByte(io);
    var size :- GetByte(io);
    var kind :- GetByte(io);
    var channel :- GetByte(io);
    r := Ok(Channel(chained, size, kind, channel));
  }

  /** The four header words after the id: width, height, ratio and fields. */
  method ReadFields(io: FileIO, hostMsb: bool) returns (r: Result<(nat, nat, nat, nat)>)
    requires io.Valid() && io.endian == !hostMsb && io.cursor == 92
    modifies io`cursor, io`pos
    ensures io.Valid()
    ensures |io.mapping| >= 102 ==>
      r == Ok((BigEndian(io.mapping[92..94]), BigEndian(io.mapping[94..96]),
               BigEndian(io.mapping[96..100]), BigEndian(io.mapping[100..102]))) &&
      io.cursor == 102 && io.pos == old(io.pos) + 10
    ensures |io.mapping| < 102 ==> r == Err(ReadError)
  {
    var width :- GetWord(io, 2, hostMsb);
    var height :- GetWord(io, 2, hostMsb);
    var ratio :- GetWord(io, 4, hostMsb);
    var fields :- GetWord(io, 2, hostMsb);
    r := Ok((width, height, ratio, fields));
  }

  /** The header reads of _open, from the start of a freshly opened file. */
  method ReadHeader(io: FileIO, hostMsb: bool) returns (r: Result<Header>)
    requires io.Valid() && io.endian == !hostMsb && io.mode == Mode.Read && io.cursor == 0
    modifies io`cursor, io`pos
    ensures io.Valid()
    ensures r == HeaderSpec(io.mapping)
    ensures r.Ok? ==> io.cursor == io.pos == HEADER_BYTES
  {
    ghost var m := io.mapping;
    var magic :- GetWord(io, 4, hostMsb);
    if magic != MAGIC {
      return Err(Unsupported);
    }
    var version :- GetWord(io, 4, hostMsb);
    var comment :- GetBytes(io, 80);
    var id :- GetBytes(io, 4);
    var size :- ReadFields(io, hostMsb);
    var (width, height, ratio, fields) := size;
    var s := io.SetPos(2, true);
    if s.Fail? {
      return Err(s.error);
    }
    if id != PICT {
      return Err(Unsupported);
    }
    r := Ok(Header(magic, version, comment, id, width, height, ratio, fields));
  }

  /** The run-length decoder's arguments: the read position in the mapping, the
      bytes of the destination, the pixels, the channels per pixel, the byte
      stride between pixels and the endian flag. */
  datatype RleCall = RleCall(at: nat, dst: seq<byte>, width: nat, channels: nat, stride: nat, endian: bool)

  /** Where the decoder stopped reading and the destination as it left it. */
  datatype RleResult = RleResult(next: nat, dst: seq<byte>)

  /** PIC::readRle over the mapping; None for the null pointer of a bad stream. */
  type RleDecoder = (seq<byte>, RleCall) -> Option<RleResult>

  /** The decoder writes inside its destination. */
  ghost predicate KeepsRowLength(rle: RleDecoder)
  {
    forall src, c :: rle(src, c).Some? ==> |rle(src, c).value.dst| == |c.dst|
  }

  /** A raw copy past the end of the mapping is an out-of-bounds read in the
      reader; the model names it instead of giving it a meaning. */
  datatype Failure = ReadFailed | Overrun

  datatype Step = Next(at: nat, row: seq<byte>) | Stop(failure: Failure, row: seq<byte>)

  function PicChannels(t: PicType): nat
  {
    if t == TypeRgb then 3 else 4
  }

  function RowBytes(t: PicType, width: nat): nat
  {
    if t == TypeRgb then width * 3 else width * 4
  }

  /** The raw branch: the whole-image size check against the bytes left after
      the header, then `size` bytes copied to the start of the row. */
  function Raw(src: seq<byte>, at: nat, row: seq<byte>, size: nat, remaining: nat, total: nat): (r: Step)
    requires size <= |row|
    ensures |r.row| == |row|
  {
    if remaining < total then Stop(ReadFailed, row)
    else if at + size > |src| then Stop(Overrun, row)
    else Next(at + size, src[at .. at + size] + row[size..])
  }

  /** The run-length branch: the decoder writes the row from `keep` bytes on. */
  function Rle(src: seq<byte>, call: RleCall, rle: RleDecoder, row: seq<byte>, keep: nat): (r: Step)
    requires KeepsRowLength(rle) && keep <= |row| && call.dst == row[keep..]
    ensures |r.row| == |row|
  {
    match rle(src, call)
    case None => Stop(ReadFailed, row)
    case Some(res) => Next(res.next, row[..keep] + res.dst)
  }

  /** One pass of the row loop for row bytes `row`. */
  function RowStep(src: seq<byte>, at: nat, row: seq<byte>, t: PicType, compression: seq<bool>, width: nat,
                   remaining: nat, total: nat, endian: bool, rle: RleDecoder): (r: Step)
    requires KeepsRowLength(rle) && |compression| == 2 && |row| == RowBytes(t, width)
    ensures |r.row| == |row|
  {
    match t
    case TypeRgb | TypeRgba =>
      var ch := PicChannels(t);
      if compression[0] then Rle(src, RleCall(at, row, width, ch, ch, endian), rle, row, 0)
      else Raw(src, at, row, RowBytes(t, width), remaining, total)
    case TypeRgbA =>
      var first :=
        if compression[0] then Rle(src, RleCall(at, row, width, 3, 4, endian), rle, row, 0)
        else Raw(src, at, row, width * 3, remaining, total);
      match first
      case Stop(_, _) => first
      case Next(at1, row1) =>
        // the alpha plane starts at byte 3 of the row; a row with no pixels has none
        var keep := if |row1| < 3 then |row1| else 3;
        if compression[1] then Rle(src, RleCall(at1, row1[keep..], width, 1, 4, endian), rle, row1, keep)
        else Raw(src, at1, row1, width, remaining, total)
  }

  /** Every row has the byte length of its layout. */
  predicate Shaped(rows: seq<seq<byte>>, t: PicType, width: nat)
  {
    forall k :: 0 <= k < |rows| ==> |rows[k]| == RowBytes(t, width)
  }

  /** The rows when the loop ends, and on a failure the failing row. */
  datatype Decoded = Done(rows: seq<seq<byte>>) | Failed(failure: Failure, y: nat, rows: seq<seq<byte>>)

  /** The row loop from row `y` on, reading the mapping from `at`. */
  function DecodeFrom(src: seq<byte>, y: nat, at: nat, rows: seq<seq<byte>>, t: PicType, compression: seq<bool>,
                      width: nat, remaining: nat, total: nat, endian: bool, rle: RleDecoder): (r: Decoded)
    requires KeepsRowLength(rle) && |compression| == 2 && y <= |rows| && Shaped(rows, t, width)
    ensures |r.rows| == |rows| && Shaped(r.rows, t, width)
    ensures r.rows[..y] == rows[..y]
    ensures r.Failed? ==> y <= r.y < |rows| && r.rows[r.y + 1..] == rows[r.y + 1..]
    decreases |rows| - y
  {
    if y == |rows| then Done(rows)
    else
      match RowStep(src, at, rows[y], t, compression, width, remaining, total, endian, rle)
      case Stop(f, row) => Failed(f, y, rows[y := row])
      case Next(at', row) =>
        var r := DecodeFrom(src, y + 1, at', rows[y := row], t, compression, width, remaining, total, endian, rle);
        assert r.rows[..y] == r.rows[..y + 1][..y];
        r
  }

  /** The row loop of read, filling the pixel buffer in place. */
  method DecodeRows(buf: array<seq<byte>>, src: seq<byte>, at0: nat, t: PicType, compression: seq<bool>,
                    width: nat, remaining: nat, total: nat, endian: bool, rle: RleDecoder) returns (r: Decoded)
    requires KeepsRowLength(rle) && |compression| == 2 && Shaped(buf[..], t, width)
    modifies buf
    ensures r == DecodeFrom(src, 0, at0, old(buf[..]), t, compression, width, remaining, total, endian, rle)
    ensures buf[..] == r.rows
  {
    var y := 0;
    var at := at0;
    while y < buf.Length
      invariant 0 <= y <= buf.Length && Shaped(buf[..], t, width)
      invariant DecodeFrom(src, y, at, buf[..], t, compression, width, remaining, total, endian, rle) ==
                DecodeFrom(src, 0, at0, old(buf[..]), t, compression, width, remaining, total, endian, rle)
      decreases buf.Length - y
    {
      var step := RowStep(src, at, buf[y], t, compression, width, remaining, total, endian, rle);
      buf[y] := step.row;
      if step.Stop? {
        return Failed(step.failure, y, buf[..]);
      }
      at := step.at;
      y := y + 1;
    }
    return Done(buf[..]);
  }

  /** The row loop of read for a parsed file: from the pixel data on, into a
      zeroed buffer of the header's shape, with the size check against the
      bytes left after the channel records. */
  function PicDecode(m: seq<byte>, f: PicFile, compression: seq<bool>, endian: bool, rle: RleDecoder): (r: Decoded)
    requires KeepsRowLength(rle) && |compression| == 2 && f.dataStart <= |m|
    requires RowByteCount(f.info.info) == RowBytes(f.picType, f.info.info.width)
    ensures |r.rows| == f.info.info.height && Shaped(r.rows, f.picType, f.info.info.width)
  {
    var info := f.info.info;
    DecodeFrom(m, 0, f.dataStart, ZeroRows(info), f.picType, compression, info.width,
               |m| - f.dataStart, DataByteCount(info), endian, rle)
  }

  /** The row loop run on a fresh zeroed buffer. */
  method DecodeFile(m: seq<byte>, f: PicFile, compression: seq<bool>, endian: bool, rle: RleDecoder) returns (d: Decoded)
    requires KeepsRowLength(rle) && |compression| == 2 && f.dataStart <= |m|
    requires RowByteCount(f.info.info) == RowBytes(f.picType, f.info.info.width)
    ensures d == PicDecode(m, f, compression, endian, rle)
  {
    var info := f.info.info;
    var rows := ZeroRows(info);
    var buf := new seq<byte>[info.height](i requires 0 <= i < info.height => rows[i]);
    assert buf[..] == rows;
    d := DecodeRows(buf, m, f.dataStart, f.picType, compression, info.width, |m| - f.dataStart, DataByteCount(info), endian, rle);
  }

  /** `n` rows of `rowBytes` bytes lie inside the mapping from `at` on. */
  predicate Fits(src: seq<byte>, at: nat, n: nat, rowBytes: nat)
    decreases n
  {
    n == 0 || (at + rowBytes <= |src| && Fits(src, at + rowBytes, n - 1, rowBytes))
  }

  lemma {:induction false} FitsFromBound(src: seq<byte>, at: nat, n: nat, rowBytes: nat)
    requires at + n * rowBytes <= |src|
    ensures Fits(src, at, n, rowBytes)
    decreases n
  {
    if n > 0 {
      assert n * rowBytes == rowBytes + (n - 1) * rowBytes;
      FitsFromBound(src, at + rowBytes, n - 1, rowBytes);
    }
  }

  /** `n` consecutive rows of the mapping, as a raw copy reads them. */
  function RawRows(src: seq<byte>, at: nat, n: nat, rowBytes: nat): (rows: seq<seq<byte>>)
    requires Fits(src, at, n, rowBytes)
    ensures |rows| == n
    decreases n
  {
    if n == 0 then [] else [src[at .. at + rowBytes]] + RawRows(src, at + rowBytes, n - 1, rowBytes)
  }

  /** One raw RGB or RGBA row: a straight copy of the next row of the mapping. */
  lemma RawRowStep(src: seq<byte>, at: nat, row: seq<byte>, t: PicType, compression: seq<bool>,
                   width: nat, remaining: nat, total: nat, endian: bool, rle: RleDecoder)
    requires KeepsRowLength(rle) && |compression| == 2 && !compression[0] && t != TypeRgbA
    requires |row| == RowBytes(t, width) && remaining >= total && at + RowBytes(t, width) <= |src|
    ensures RowStep(src, at, row, t, compression, width, remaining, total, endian, rle) ==
            Next(at + RowBytes(t, width), src[at .. at + RowBytes(t, width)])
  {
    assert row[RowBytes(t, width)..] == [];
  }

  /** A row that steps on leaves the rest of the loop to the next row. */
  lemma DecodeUnfoldsNext(src: seq<byte>, y: nat, at: nat, rows: seq<seq<byte>>, t: PicType, compression: seq<bool>,
                          width: nat, remaining: nat, total: nat, endian: bool, rle: RleDecoder, at': nat, row: seq<byte>)
    requires KeepsRowLength(rle) && |compression| == 2 && y < |rows| && Shaped(rows, t, width)
    requires RowStep(src, at, rows[y], t, compression, width, remaining, total, endian, rle) == Next(at', row)
    ensures Shaped(rows[y := row], t, width)
    ensures DecodeFrom(src, y, at, rows, t, compression, width, remaining, total, endian, rle) ==
            DecodeFrom(src, y + 1, at', rows[y := row], t, compression, width, remaining, total, endian, rle)
  {
  }

  /** The first of `n` raw rows, then the other n - 1. */
  lemma RawRowsCons(src: seq<byte>, at: nat, n: nat, rowBytes: nat)
    requires n > 0 && Fits(src, at, n, rowBytes)
    ensures at + rowBytes <= |src| && Fits(src, at + rowBytes, n - 1, rowBytes)
    ensures RawRows(src, at, n, rowBytes) == [src[at .. at + rowBytes]] + RawRows(src, at + rowBytes, n - 1, rowBytes)
  {
  }

  lemma PrefixStep(rows: seq<seq<byte>>, y: nat, row: seq<byte>, tail: seq<seq<byte>>)
    requires y < |rows|
    ensures rows[y := row][..y + 1] + tail == rows[..y] + ([row] + tail)
  {
    assert rows[y := row][..y + 1] == rows[..y] + [row];
  }

  /** With nothing compressed and the size check passing, RGB and RGBA rows are
      the consecutive raw rows of the mapping. */
  lemma {:induction false} RawDecode(src: seq<byte>, y: nat, at: nat, rows: seq<seq<byte>>, t: PicType, compression: seq<bool>,
                                     width: nat, remaining: nat, total: nat, endian: bool, rle: RleDecoder)
    requires KeepsRowLength(rle) && |compression| == 2 && !compression[0] && t != TypeRgbA
    requires y <= |rows| && Shaped(rows, t, width) && remaining >= total
    requires Fits(src, at, |rows| - y, RowBytes(t, width))
    ensures DecodeFrom(src, y, at, rows, t, compression, width, remaining, total, endian, rle) ==
            Done(rows[..y] + RawRows(src, at, |rows| - y, RowBytes(t, width)))
    decreases |rows| - y
  {
    var rb := RowBytes(t, width);
    var n := |rows| - y;
    if y == |rows| {
      assert rows[..y] == rows;
    } else {
      var row := src[at .. at + rb];
      RawRowsCons(src, at, n, rb);
      RawRowStep(src, at, rows[y], t, compression, width, remaining, total, endian, rle);
      DecodeUnfoldsNext(src, y, at, rows, t, compression, width, remaining, total, endian, rle, at + rb, row);
      RawDecode(src, y + 1, at + rb, rows[y := row], t, compression, width, remaining, total, endian, rle);
      PrefixStep(rows, y, row, RawRows(src, at + rb, n - 1, rb));
    }
  }

  /** With nothing compressed, an RGB_A row takes width * 4 bytes: the RGB copy
      fills the first width * 3 bytes, and the alpha copy then lands on the first
      `width` bytes of the row, not on the alpha channel. */
  lemma RawRgbARow(src: seq<byte>, at: nat, row: seq<byte>, width: nat, remaining: nat, total: nat, endian: bool, rle: RleDecoder)
    requires KeepsRowLength(rle) && |row| == width * 4 && remaining >= total && at + width * 4 <= |src|
    ensures var s := RowStep(src, at, row, TypeRgbA, [false, false], width, remaining, total, endian, rle);
            s == Next(at + width * 4, s.row) &&
            s.row[..width] == src[at + width * 3 .. at + width * 4] &&
            s.row[width .. width * 3] == src[at + width .. at + width * 3] &&
            s.row[width * 3..] == row[width * 3..]
  {
    var row1 := src[at .. at + width * 3] + row[width * 3..];
    assert Raw(src, at, row, width * 3, remaining, total) == Next(at + width * 3, row1);
    var row2 := src[at + width * 3 .. at + width * 4] + row1[width..];
    assert Raw(src, at + width * 3, row1, width, remaining, total) == Next(at + width * 4, row2);
    assert row1[width .. width * 3] == src[at + width .. at + width * 3];
    assert row2[width .. width * 3] == row1[width .. width * 3];
    assert row2[width * 3..] == row1[width * 3..];
  }

  /** With nothing compressed the rows never run past the mapping once the size
      check passes, whatever the layout. */
  lemma {:induction false} RawNeverOverruns(src: seq<byte>, y: nat, at: nat, rows: seq<seq<byte>>, t: PicType,
                                            width: nat, remaining: nat, total: nat, endian: bool, rle: RleDecoder)
    requires KeepsRowLength(rle) && y <= |rows| && Shaped(rows, t, width) && remaining >= total
    requires Fits(src, at, |rows| - y, RowBytes(t, width))
    ensures DecodeFrom(src, y, at, rows, t, [false, false], width, remaining, total, endian, rle).Done?
    decreases |rows| - y
  {
    if y < |rows| {
      var rb := RowBytes(t, width);
      var s := RowStep(src, at, rows[y], t, [false, false], width, remaining, total, endian, rle);
      if t == TypeRgbA {
        RawRgbARow(src, at, rows[y], width, remaining, total, endian, rle);
      } else {
        assert s.Next? && s.at == at + rb;
      }
      RawNeverOverruns(src, y + 1, at + rb, rows[y := s.row], t, width, remaining, total, endian, rle);
    }
  }

  /** With the first plane raw, a failing size check stops the loop at its first
      row with nothing copied. */
  lemma RawCheckFails(src: seq<byte>, y: nat, at: nat, rows: seq<seq<byte>>, t: PicType, compression: seq<bool>,
                      width: nat, remaining: nat, total: nat, endian: bool, rle: RleDecoder)
    requires KeepsRowLength(rle) && |compression| == 2 && !compression[0]
    requires y < |rows| && Shaped(rows, t, width) && remaining < total
    ensures DecodeFrom(src, y, at, rows, t, compression, width, remaining, total, endian, rle) == Failed(ReadFailed, y, rows)
  {
    assert rows[y := rows[y]] == rows;
  }

  /** A decoder that consumes everything that is left and leaves the row as it is. */
  function ConsumeAll(src: seq<byte>, c: RleCall): Option<RleResult>
  {
    Some(RleResult(|src|, c.dst))
  }

  /** The size check counts the bytes left after the header, not after the
      run-length planes: a one-pixel RGB_A file of 116 bytes whose RGB plane is a
      4-byte run-length packet passes the check, and its raw alpha byte is then
      read from past the end of the mapping. */
  lemma CheckPassesYetOverruns(src: seq<byte>)
    requires |src| == 116
    ensures KeepsRowLength(ConsumeAll)
    ensures var rows := [[0 as byte, 0, 0, 0]];
            DecodeFrom(src, 0, 112, rows, TypeRgbA, [true, false], 1, |src| - 112, 4, false, ConsumeAll) == Failed(Overrun, 0, rows)
  {
    var rows := [[0 as byte, 0, 0, 0]];
    var call := RleCall(112, rows[0], 1, 3, 4, false);
    assert ConsumeAll(src, call) == Some(RleResult(116, rows[0]));
    assert rows[0][..0] + rows[0] == rows[0];
    assert rows[0 := rows[0]] == rows;
  }

  /** A zeroed buffer whose row length is the layout's has the layout's shape. */
  lemma ZeroRowsShaped(info: PixelDataInfo, t: PicType)
    requires RowByteCount(info) == RowBytes(t, info.width)
    ensures |ZeroRows(info)| == info.height && Shaped(ZeroRows(info), t, info.width)
  {
  }

  /** With nothing compressed and `n` rows whose bytes lie inside the mapping,
      the whole loop succeeds, and for RGB and RGBA it yields the consecutive
      raw rows. */
  lemma RawDataDecodes(src: seq<byte>, at: nat, rows: seq<seq<byte>>, n: nat, t: PicType, width: nat,
                       remaining: nat, total: nat, endian: bool, rle: RleDecoder)
    requires KeepsRowLength(rle) && Shaped(rows, t, width) && |rows| == n && remaining >= total
    requires at + n * RowBytes(t, width) <= |src|
    ensures var d := DecodeFrom(src, 0, at, rows, t, [false, false], width, remaining, total, endian, rle);
            Fits(src, at, n, RowBytes(t, width)) && d.Done? &&
            (t != TypeRgbA ==> d.rows == RawRows(src, at, n, RowBytes(t, width)))
  {
    FitsFromBound(src, at, n, RowBytes(t, width));
    RawNeverOverruns(src, 0, at, rows, t, width, remaining, total, endian, rle);
    if t != TypeRgbA {
      RawDecode(src, 0, at, rows, t, [false, false], width, remaining, total, endian, rle);
      assert rows[..0] == [];
    }
  }

  /** The uncompressed read of any file shape whose pixel data, one row of its
      layout per image row, fit: it succeeds, and for RGB and RGBA the rows are
      the consecutive rows from the start of the data. */
  lemma RawFileDecodes(m: seq<byte>, f: PicFile, endian: bool, rle: RleDecoder)
    requires KeepsRowLength(rle) && f.dataStart <= |m|
    requires RowByteCount(f.info.info) == RowBytes(f.picType, f.info.info.width)
    requires |m| - f.dataStart >= DataByteCount(f.info.info)
    ensures var info := f.info.info;
            var rb := RowBytes(f.picType, info.width);
            var d := DecodeFrom(m, 0, f.dataStart, ZeroRows(info), f.picType, [false, false], info.width,
                                |m| - f.dataStart, DataByteCount(info), endian, rle);
            d.Done? && Fits(m, f.dataStart, info.height, rb) &&
            (f.picType != TypeRgbA ==> d.rows == RawRows(m, f.dataStart, info.height, rb))
  {
    var info := f.info.info;
    var rb := RowBytes(f.picType, info.width);
    ZeroRowsShaped(info, f.picType);
    assert f.dataStart + info.height * rb <= |m| by {
      assert DataByteCount(info) == info.height * RowByteCount(info);
    }
    RawDataDecodes(m, f.dataStart, ZeroRows(info), info.height, f.picType, info.width, |m| - f.dataStart, DataByteCount(info), endian, rle);
  }

  /** The whole read of an uncompressed file that passes its size check: it
      succeeds; for RGB and RGBA the rows are the consecutive rows after the
      channel records. */
  lemma UncompressedFileDecodes(m: seq<byte>, f: PicFile, endian: bool, rle: RleDecoder)
    requires KeepsRowLength(rle) && ParseHeader(m) == Ok(f)
    requires |m| - f.dataStart >= DataByteCount(f.info.info)
    ensures var info := f.info.info;
            var rb := RowBytes(f.picType, info.width);
            var d := DecodeFrom(m, 0, f.dataStart, ZeroRows(info), f.picType, [false, false], info.width,
                                |m| - f.dataStart, DataByteCount(info), endian, rle);
            d.Done? && Fits(m, f.dataStart, info.height, rb) &&
            (f.picType != TypeRgbA ==> d.rows == RawRows(m, f.dataStart, info.height, rb))
  {
    RawFileDecodes(m, f, endian, rle);
  }

  /** How read ends: decoded, a thrown error, or an out-of-bounds raw copy. */
  datatype ReadOutcome = Loaded | ReadErr(error: Error) | OutOfBounds(y: nat)

  class PicLoad {
    var file: FileInfo
    var picType: PicType
    var compression: seq<bool>

    ghost predicate Valid()
      reads this
    {
      |compression| == 2
    }

    constructor ()
      ensures Valid() && file == EMPTY_FILE_INFO && compression == [false, false]
    {
      file := EMPTY_FILE_INFO;
      picType := TypeRgb;
      compression := [false, false];
    }

    /** _open: read the header and the channel records of `name` through `io`
        (a fresh FileIO), on a host of either byte order. */
    method OpenFile(io: FileIO, name: string, os: Option<seq<byte>>, mapOk: bool, hostMsb: bool) returns (r: Result<PicFile>)
      requires Valid() && io.Valid()
      modifies this`picType, this`compression, io
      ensures Valid() && io.Valid()
      ensures r == OpenSpec(os, mapOk)
      ensures compression == CompressionAfter(old(compression), os, mapOk)
      ensures picType == (if r.Ok? then r.value.picType else old(picType))
      ensures r.Ok? ==> io.mapping == os.value && io.cursor == io.pos == r.value.dataStart &&
                        io.size == |os.value| && io.endian == !hostMsb
    {
      io.SetEndian(!hostMsb);
      var o := io.Open(name, Mode.Read, os, mapOk);
      if o.Fail? {
        return Err(o.error);
      }
      ghost var m := io.mapping;
      assert m == os.value;
      var header :- ReadHeader(io, hostMsb);
      r := ReadChannels(io, header);
    }

    /** The channel reads of _open, right after the header. */
    method ReadChannels(io: FileIO, header: Header) returns (r: Result<PicFile>)
      requires Valid() && io.Valid() && io.cursor == io.pos == HEADER_BYTES && |header.comment| > 0
      modifies this`picType, this`compression, io`cursor, io`pos
      ensures Valid() && io.Valid()
      ensures r == ChannelsSpec(io.mapping, header)
      ensures compression == ChannelFlags(old(compression), io.mapping)
      ensures picType == (if r.Ok? then r.value.picType else old(picType))
      ensures r.Ok? ==> io.cursor == io.pos == r.value.dataStart
    {
      var c1 :- ReadChannel(io);
      compression := compression[0 := c1.kind == RLE_TYPE];
      var t: PicType;
      var records: seq<Channel>;
      match ClassifyFirst(c1) {
        case Layout(lt) =>
          t, records := lt, [c1];
        case Rejected =>
          return Err(Unsupported);
        case Chained =>
          var c2 :- ReadChannel(io);
          compression := compression[1 := c2.kind == RLE_TYPE];
          if !IsAlphaOnly(c2) {
            return Err(Unsupported);
          }
          t, records := TypeRgbA, [c1, c2];
      }
      picType := t;
      r := Ok(PicFile(header, t, records, PicInfo(header, t), io.pos));
    }

    /** open: remember the file and read the information of its first frame;
        a sequence reports all of its frames. */
    method Open(f: FileInfo, os: Option<seq<byte>>, mapOk: bool, hostMsb: bool) returns (name: string, r: Result<ImageIOInfo>)
      requires Valid()
      modifies this
      ensures Valid() && file == f
      ensures name == FileName(f, Start(f.sequence))
      ensures compression == CompressionAfter(old(compression), os, mapOk)
      ensures OpenSpec(os, mapOk).Err? ==> r == Err(OpenSpec(os, mapOk).error)
      ensures OpenSpec(os, mapOk).Ok? ==>
        var info := OpenSpec(os, mapOk).value.info;
        r == Ok(if f.fileType == SequenceFile then info.(sequence := info.sequence.(frames := f.sequence.frames)) else info)
    {
      file := f;
      name := FileName(file, Start(file.sequence));
      var io := new FileIO();
      var parsed := OpenFile(io, name, os, mapOk, hostMsb);
      if parsed.Err? {
        return name, Err(parsed.error);
      }
      var info := parsed.value.info;
      if file.fileType == SequenceFile {
        info := info.(sequence := info.sequence.(frames := file.sequence.frames));
      }
      r := Ok(info);
    }

    /** read: open the file of `frame` (-1 for the first frame of the sequence),
        take its tags, and decode its rows into a new buffer. An error before the
        buffer is set leaves `img` with its tags cleared. */
    method Read(frame: int, img: Image, os: Option<seq<byte>>, mapOk: bool, hostMsb: bool, rle: RleDecoder)
      returns (name: string, image: Image, r: ReadOutcome)
      requires Valid() && KeepsRowLength(rle)
      modifies this`picType, this`compression
      ensures Valid()
      ensures name == FileName(file, if frame != -1 then frame else Start(file.sequence))
      ensures compression == CompressionAfter(old(compression), os, mapOk)
      ensures OpenSpec(os, mapOk).Err? ==>
        r == ReadErr(OpenSpec(os, mapOk).error) && image == img.(tags := map[])
      ensures OpenSpec(os, mapOk).Ok? ==>
        var f := OpenSpec(os, mapOk).value;
        var d := PicDecode(os.value, f, compression, !hostMsb, rle);
        image == Image(f.info.info, d.rows, f.info.tags) &&
        r == (if d.Done? then Loaded else if d.failure == ReadFailed then ReadErr(ReadError) else OutOfBounds(d.y))
    {
      name := FileName(file, if frame != -1 then frame else Start(file.sequence));
      image := img.(tags := map[]);
      var io := new FileIO();
      var parsed := OpenFile(io, name, os, mapOk, hostMsb);
      if parsed.Err? {
        return name, image, ReadErr(parsed.error);
      }
      var f := parsed.value;
      var d := DecodeFile(io.mapping, f, compression, io.endian, rle);
      image := Image(f.info.info, d.rows, f.info.tags);
      r := if d.Done? then Loaded else if d.failure == ReadFailed then ReadErr(ReadError) else OutOfBounds(d.y);
    }
  }
}
