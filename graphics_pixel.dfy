/** The pixel and image data model shared by the codecs and the viewer:
    pixel formats, the shape of a pixel buffer, images and image I/O information. */
module GraphicsPixel {
  import opened CoreMemory
  import opened CoreSequence

  datatype Format = L | LA | RGB | RGBA

  datatype ChannelType = U8 | U16 | F16 | F32

  /** Pixel::PIXEL: a channel layout and a channel type. */
  datatype PixelFormat = PixelFormat(format: Format, channelType: ChannelType)

  const L_U8: PixelFormat := PixelFormat(L, U8)
  const RGB_U8: PixelFormat := PixelFormat(RGB, U8)
  const RGBA_U8: PixelFormat := PixelFormat(RGBA, U8)

  /** Pixel::channels */
  function Channels(f: Format): nat
  {
    match f
    case L => 1
    case LA => 2
    case RGB => 3
    case RGBA => 4
  }

  /** Pixel::channelByteCount */
  function ChannelByteCount(t: ChannelType): nat
  {
    match t
    case U8 => 1
    case U16 => 2
    case F16 => 2
    case F32 => 4
  }

  function PixelByteCount(p: PixelFormat): nat
  {
    Channels(p.format) * ChannelByteCount(p.channelType)
  }

  /** The shape of a pixel buffer. */
  datatype PixelDataInfo = PixelDataInfo(
    layerName: string,
    width: nat,
    height: nat,
    pixel: PixelFormat,
    mirrorY: bool,
    proxy: nat)

  const EMPTY_INFO: PixelDataInfo := PixelDataInfo("", 0, 0, L_U8, false, 0)

  function RowByteCount(info: PixelDataInfo): nat
  {
    info.width * PixelByteCount(info.pixel)
  }

  /** PixelDataUtil::dataByteCount: the bytes of a whole buffer of this shape. */
  function DataByteCount(info: PixelDataInfo): nat
  {
    info.height * RowByteCount(info)
  }

  type Tags = map<string, string>

  /** The key of ImageTags::DESCRIPTION. */
  const DESCRIPTION: string := "Description"

  /** The value of a tag, empty when it is not set. */
  function Tag(tags: Tags, key: string): string
  {
    if key in tags then tags[key] else ""
  }

  /** An image: its shape, its rows of pixel bytes (row y is PixelData::data(0, y))
      and its tags. */
  datatype Image = Image(info: PixelDataInfo, rows: seq<seq<byte>>, tags: Tags)

  /** The rows match the shape. */
  predicate WellFormed(img: Image)
  {
    |img.rows| == img.info.height &&
    forall y :: 0 <= y < |img.rows| ==> |img.rows[y]| == RowByteCount(img.info)
  }

  /** PixelData::isValid: the buffer has pixels. */
  predicate IsValid(img: Image)
  {
    img.info.width > 0 && img.info.height > 0
  }

  /** A default-constructed Image. */
  const EMPTY_IMAGE: Image := Image(EMPTY_INFO, [], map[])

  /** A buffer of the given shape with every byte zero. */
  function ZeroRows(info: PixelDataInfo): (rows: seq<seq<byte>>)
    ensures WellFormed(Image(info, rows, map[]))
  {
    seq(info.height, _ => seq(RowByteCount(info), _ => 0 as byte))
  }

  const DEFAULT_SPEED: Speed := Speed(24, 1)

  const EMPTY_SEQUENCE: Sequence := Sequence([], 0, DEFAULT_SPEED)

  /** ImageIOInfo: the first layer's shape, any further layers, the frame
      sequence and the file's tags. */
  datatype ImageIOInfo = ImageIOInfo(
    info: PixelDataInfo,
    extraLayers: seq<PixelDataInfo>,
    sequence: Sequence,
    tags: Tags)

  const EMPTY_IO_INFO: ImageIOInfo := ImageIOInfo(EMPTY_INFO, [], EMPTY_SEQUENCE, map[])

  function LayerCount(io: ImageIOInfo): nat
  {
    1 + |io.extraLayers|
  }

  /** The names of the layers, in order (what FileGroup::open lists). */
  function LayerNames(io: ImageIOInfo): (names: seq<string>)
    ensures |names| == LayerCount(io)
    ensures names[0] == io.info.layerName
    ensures forall i :: 1 <= i < |names| ==> names[i] == io.extraLayers[i - 1].layerName
  {
    [io.info.layerName] + seq(|io.extraLayers|, i requires 0 <= i < |io.extraLayers| => io.extraLayers[i].layerName)
  }
}
