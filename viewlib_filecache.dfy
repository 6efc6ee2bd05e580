/** The frame cache as the viewer's file controller sees it: decoded images
    keyed by (window, frame) and a byte budget. FileCache.cpp is not part of this
    model; its eviction policy is left open, so adding an item may drop others. */
module ViewLibFileCache {
  import opened GraphicsPixel

  /** FileCacheKey: the owning window and the frame index. */
  datatype Key = Key(window: nat, frame: int)

  /** The byte size of a cached image (FileCacheItem::dataByteCount). */
  function ByteCount(img: Image): nat
  {
    DataByteCount(img.info)
  }

  /** The items that do not belong to `window`. */
  function WithoutWindow(items: map<Key, Image>, window: nat): (r: map<Key, Image>)
    ensures forall k :: k in r <==> k in items && k.window != window
    ensures forall k :: k in r ==> r[k] == items[k]
  {
    map k | k in items && k.window != window :: items[k]
  }

  /** Removing one window's items removes exactly those: another window keeps
      every item it had, and a second removal changes nothing. */
  lemma WithoutWindowOwnerScoped(items: map<Key, Image>, window: nat, other: nat, frame: int)
    requires other != window
    ensures Key(other, frame) in WithoutWindow(items, window) <==> Key(other, frame) in items
    ensures Key(window, frame) !in WithoutWindow(items, window)
    ensures WithoutWindow(WithoutWindow(items, window), window) == WithoutWindow(items, window)
  {
  }

  class FileCache {
    var items: map<Key, Image>
    var maxSizeBytes: nat

    constructor (maxSizeBytes: nat)
      ensures items == map[] && this.maxSizeBytes == maxSizeBytes
    {
      items := map[];
      this.maxSizeBytes := maxSizeBytes;
    }

    function HasItem(key: Key): (r: bool)
      reads this
      ensures r <==> key in items
    {
      key in items
    }

    function Item(key: Key): Image
      reads this
      requires key in items
    {
      items[key]
    }

    /** addItem: the image is cached under `key`; the cache may evict other
        items to keep within its budget but never changes the ones it keeps. */
    method AddItem(key: Key, img: Image)
      modifies this`items
      ensures key in items && items[key] == img
      ensures forall k :: k in items && k != key ==> k in old(items) && items[k] == old(items)[k]
    {
      items := items[key := img];
    }

    /** clearItems: remove every item of `window` and nothing else. */
    method ClearItems(window: nat)
      modifies this`items
      ensures items == WithoutWindow(old(items), window)
    {
      items := WithoutWindow(items, window);
    }
  }
}
