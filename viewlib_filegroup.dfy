/** djv::ViewLib::FileGroup, the decision logic of a viewer window's file
    controller: which settings clear the window's cached frames, when the
    preload timer runs, how image(frame) uses the cache, and the preload scan
    that finds the next frame to decode. The loader, the OpenGL conversion and
    the timer are parameters: what a read produces, the converted pixels, and a
    counter that numbers started timers. */
module ViewLibFileGroup {
  import opened CoreErrors
  import opened CoreMemory
  import opened CoreMath
  import opened CoreFileInfo
  import opened GraphicsPixel
  import opened ViewLibFileCache

  /** Where the preload scan stops: whether to decode `frame`, the bytes
      counted and the frames visited. */
  datatype Scan = Scan(preload: bool, frame: int, byteCount: nat, frameCount: nat)

  /** The scan loop of timerEvent from the given loop state: a cached frame adds
      its size and moves to the next frame, wrapping past the last index to 0;
      the first uncached frame adds the estimated size and ends the scan, to be
      decoded if the total is still within the budget. */
  function ScanFrom(items: map<Key, Image>, window: nat, maxBytes: nat, estimate: nat, total: nat,
                    frame: int, byteCount: nat, frameCount: nat): (r: Scan)
    ensures r.preload ==> Key(window, r.frame) !in items && r.byteCount <= maxBytes && r.frameCount < total
    ensures r.frameCount >= frameCount && r.byteCount >= byteCount
    ensures frameCount <= total ==> r.frameCount <= total
    decreases total - frameCount
  {
    if !(byteCount <= maxBytes && frameCount < total) then Scan(false, frame, byteCount, frameCount)
    else
      var key := Key(window, frame);
      if key in items then
        ScanFrom(items, window, maxBytes, estimate, total, Wrap(frame + 1, 0, total - 1),
                 byteCount + ByteCount(items[key]), frameCount + 1)
      else
        Scan(byteCount + estimate <= maxBytes, frame, byteCount + estimate, frameCount)
  }

  /** The scan timerEvent runs: from preloadFrame with nothing counted. */
  function PreloadScan(items: map<Key, Image>, window: nat, maxBytes: nat, io: ImageIOInfo, preloadFrame: int): Scan
  {
    ScanFrom(items, window, maxBytes, DataByteCount(io.info), |io.sequence.frames|, preloadFrame, 0, 0)
  }

  /** When every frame of the sequence is cached for the window, the scan finds
      nothing to decode (and the timer is then stopped). */
  lemma {:induction false} ScanAllCached(items: map<Key, Image>, window: nat, maxBytes: nat, estimate: nat, total: nat,
                                         frame: int, byteCount: nat, frameCount: nat)
    requires 0 <= frame < total
    requires forall f :: 0 <= f < total ==> Key(window, f) in items
    ensures !ScanFrom(items, window, maxBytes, estimate, total, frame, byteCount, frameCount).preload
    decreases total - frameCount
  {
    if byteCount <= maxBytes && frameCount < total {
      var next := Wrap(frame + 1, 0, total - 1);
      assert 0 <= next < total;
      ScanAllCached(items, window, maxBytes, estimate, total, next,
                    byteCount + ByteCount(items[Key(window, frame)]), frameCount + 1);
    }
  }

  /** A cached last frame within the budget passes the scan on to frame 0. */
  lemma ScanWrapsToFirst(items: map<Key, Image>, window: nat, maxBytes: nat, estimate: nat, total: nat,
                         byteCount: nat, frameCount: nat)
    requires 0 < total && frameCount < total && byteCount <= maxBytes
    requires Key(window, total - 1) in items
    ensures ScanFrom(items, window, maxBytes, estimate, total, total - 1, byteCount, frameCount) ==
            ScanFrom(items, window, maxBytes, estimate, total, 0,
                     byteCount + ByteCount(items[Key(window, total - 1)]), frameCount + 1)
  {
    WrapEnds(0, total - 1);
  }

  /** A scan that starts in range visits only frame indices of the sequence. */
  lemma {:induction false} ScanStaysInRange(items: map<Key, Image>, window: nat, maxBytes: nat, estimate: nat, total: nat,
                                            frame: int, byteCount: nat, frameCount: nat)
    requires 0 <= frame < total
    ensures var r := ScanFrom(items, window, maxBytes, estimate, total, frame, byteCount, frameCount);
            0 <= r.frame < total
    decreases total - frameCount
  {
    if byteCount <= maxBytes && frameCount < total && Key(window, frame) in items {
      ScanStaysInRange(items, window, maxBytes, estimate, total, Wrap(frame + 1, 0, total - 1),
                       byteCount + ByteCount(items[Key(window, frame)]), frameCount + 1);
    }
  }

  /** The frame index reached after `k` steps of the scan from `start`, with one
      wrap past the last index. */
  function At(start: int, total: nat, k: nat): int
  {
    if start + k < total then start + k else start + k - total
  }

  /** The bytes the scan counts for its first `n` frames from `start`. */
  function PassedBytes(items: map<Key, Image>, window: nat, start: int, total: nat, n: nat): nat
    decreases n
  {
    if n == 0 then 0
    else
      var key := Key(window, At(start, total, n - 1));
      PassedBytes(items, window, start, total, n - 1) + (if key in items then ByteCount(items[key]) else 0)
  }

  /** One more step of the scan moves to the next index, wrapping past the last. */
  lemma AtStep(start: int, total: nat, k: nat)
    requires 0 <= start < total && k < total
    ensures 0 <= At(start, total, k) < total
    ensures Wrap(At(start, total, k) + 1, 0, total - 1) == At(start, total, k + 1)
  {
    var f := At(start, total, k);
    if f + 1 < total {
      WrapInRange(f + 1, 0, total - 1);
    } else {
      WrapEnds(0, total - 1);
    }
  }

  /** What a scan from `start` returns: it passed `r.frameCount` frames, all
      cached, in order from `start`, and stopped at the next one; it counted
      their sizes, plus the estimate when the frame it stopped at is uncached
      and the budget still held; it preloads exactly that uncached frame when
      the estimate fits; without a preload the budget was exceeded or every frame
      was cached. */
  ghost predicate StopsAtFirstUncached(items: map<Key, Image>, window: nat, maxBytes: nat, estimate: nat,
                                       total: nat, start: int, r: Scan)
  {
    r.frameCount <= total &&
    (forall k :: 0 <= k < r.frameCount ==> Key(window, At(start, total, k)) in items) &&
    (r.frameCount < total ==> r.frame == At(start, total, r.frameCount)) &&
    var passed := PassedBytes(items, window, start, total, r.frameCount);
    var uncached := r.frameCount < total && passed <= maxBytes && Key(window, r.frame) !in items;
    r.byteCount == passed + (if uncached then estimate else 0) &&
    (r.preload <==> uncached && r.byteCount <= maxBytes) &&
    (!r.preload ==> r.byteCount > maxBytes || r.frameCount == total)
  }

  /** The scan resumed after `frameCount` cached frames from `start`, with
      their sizes counted, ends as StopsAtFirstUncached says. */
  lemma {:induction false} ScanFromPassed(items: map<Key, Image>, window: nat, maxBytes: nat, estimate: nat,
                                          total: nat, start: int, frameCount: nat)
    requires 0 <= start < total && frameCount <= total
    requires forall k :: 0 <= k < frameCount ==> Key(window, At(start, total, k)) in items
    ensures StopsAtFirstUncached(items, window, maxBytes, estimate, total, start,
              ScanFrom(items, window, maxBytes, estimate, total, At(start, total, frameCount),
                       PassedBytes(items, window, start, total, frameCount), frameCount))
    decreases total - frameCount
  {
    var frame := At(start, total, frameCount);
    var byteCount := PassedBytes(items, window, start, total, frameCount);
    if byteCount <= maxBytes && frameCount < total && Key(window, frame) in items {
      AtStep(start, total, frameCount);
      assert PassedBytes(items, window, start, total, frameCount + 1) == byteCount + ByteCount(items[Key(window, frame)]);
      ScanFromPassed(items, window, maxBytes, estimate, total, start, frameCount + 1);
    }
  }

  /** The preload scan from a frame of the list stops at the first uncached
      frame in playback order, wrapping once past the last frame. */
  lemma ScanFindsFirstUncached(items: map<Key, Image>, window: nat, maxBytes: nat, estimate: nat,
                               total: nat, start: int)
    requires 0 <= start < total
    ensures StopsAtFirstUncached(items, window, maxBytes, estimate, total, start,
              ScanFrom(items, window, maxBytes, estimate, total, start, 0, 0))
  {
    assert At(start, total, 0) == start;
    ScanFromPassed(items, window, maxBytes, estimate, total, start, 0);
  }

  /** As written, the scan starts from preloadFrame unwrapped: past the end of
      the frame list, an uncached preloadFrame within the budget is chosen for
      preloading although it indexes no frame. */
  lemma ScanLeavesFrameList(items: map<Key, Image>, window: nat, maxBytes: nat, estimate: nat,
                            total: nat, frame: int)
    requires 0 < total <= frame && Key(window, frame) !in items && estimate <= maxBytes
    ensures ScanFrom(items, window, maxBytes, estimate, total, frame, 0, 0) == Scan(true, frame, estimate, 0)
    ensures !(0 <= frame < total)
  {
  }

  /** The scan with its start wrapped into the frame list first. */
  function IntendedPreloadScan(items: map<Key, Image>, window: nat, maxBytes: nat, io: ImageIOInfo, preloadFrame: int): Scan
  {
    var total := |io.sequence.frames|;
    ScanFrom(items, window, maxBytes, DataByteCount(io.info), total, Wrap(preloadFrame, 0, total - 1), 0, 0)
  }

  /** The wrapped scan only ever preloads a frame of the list, and agrees with
      the scan as written whenever preloadFrame is already in the list. */
  lemma IntendedScanStaysInList(items: map<Key, Image>, window: nat, maxBytes: nat, io: ImageIOInfo, preloadFrame: int)
    ensures var r := IntendedPreloadScan(items, window, maxBytes, io, preloadFrame);
            r.preload ==> 0 <= r.frame < |io.sequence.frames|
    ensures 0 <= preloadFrame < |io.sequence.frames| ==>
            IntendedPreloadScan(items, window, maxBytes, io, preloadFrame) == PreloadScan(items, window, maxBytes, io, preloadFrame)
  {
    var total := |io.sequence.frames|;
    if total > 0 {
      var start := Wrap(preloadFrame, 0, total - 1);
      ScanStaysInRange(items, window, maxBytes, DataByteCount(io.info), total, start, 0, 0);
      if 0 <= preloadFrame < total {
        WrapInRange(preloadFrame, 0, total - 1);
      }
    }
  }

  /** The layer setLayer stores for a request that differs from the current
      layer: wrapped into the layer list, 0 when the list is empty. */
  function WrappedLayer(requested: int, count: nat): (r: int)
    ensures count > 0 ==> 0 <= r < count
    ensures count == 0 ==> r == 0
    ensures 0 <= requested < count ==> r == requested
  {
    if 0 <= requested < count then
      WrapInRange(requested, 0, count - 1);
      Wrap(requested, 0, count - 1)
    else
      Wrap(requested, 0, count - 1)
  }

  /** The previous and next layer commands step through the layers and wrap
      around at both ends. */
  lemma LayerStepWraps(layer: int, count: nat)
    requires 0 <= layer < count
    ensures WrappedLayer(layer + 1, count) == (if layer == count - 1 then 0 else layer + 1)
    ensures WrappedLayer(layer - 1, count) == (if layer == 0 then count - 1 else layer - 1)
  {
    WrapEnds(0, count - 1);
  }

  /** The frame number asked of the loader for frame index `frame`: the
      sequence's frame there, or -1 for a file without a frame list. An index
      outside a non-empty list reads past the list in the source; the model names
      that case instead of giving it a meaning. */
  datatype FrameLookup = FrameNumber(value: int) | OutsideList(index: int)

  function FrameToRead(frames: seq<int>, frame: int): FrameLookup
  {
    if |frames| == 0 then FrameNumber(-1)
    else if 0 <= frame < |frames| then FrameNumber(frames[frame])
    else OutsideList(frame)
  }

  /** The 8-bit copy made by the u8 conversion: the same shape and tags with
      8-bit channels, holding the pixels the OpenGL copy produces. */
  function U8Converted(img: Image, rows: seq<seq<byte>>): (r: Image)
    ensures r.info.pixel.format == img.info.pixel.format && r.info.pixel.channelType == U8
    ensures r.info.width == img.info.width && r.info.height == img.info.height && r.tags == img.tags
  {
    Image(img.info.(pixel := PixelFormat(img.info.pixel.format, U8)), rows, img.tags)
  }

  /** The image image() keeps after a miss with a loader: the read result
      (kept even when the read failed), converted when u8 conversion is on. */
  function LoadedImage(loaded: Image, u8Conversion: bool, rows: seq<seq<byte>>): Image
  {
    if u8Conversion then U8Converted(loaded, rows) else loaded
  }

  /** The image a preload decodes: converted only after a read that succeeded
      and gave a valid image. */
  function PreloadedImage(loaded: Image, readOk: bool, u8Conversion: bool, rows: seq<seq<byte>>): (r: Image)
    ensures IsValid(r) <==> IsValid(loaded)
  {
    if readOk && IsValid(loaded) && u8Conversion then U8Converted(loaded, rows) else loaded
  }

  /** preloadUpdate's promise: the timer runs exactly when preloading is
      wanted, and a running timer is kept rather than restarted. */
  ghost predicate TimerFollows(before: nat, wanted: bool, after: nat)
  {
    (after != 0 <==> wanted) && (wanted && before != 0 ==> after == before)
  }

  class FileGroup {
    const window: nat          // mainWindow(), the owner of this group's cache items
    const cache: FileCache
    var fileInfo: FileInfo
    var ioInfo: ImageIOInfo
    var image: Option<Image>
    var hasLoader: bool
    var layer: int
    var layers: seq<string>
    var proxy: nat
    var u8Conversion: bool
    var cacheEnabled: bool
    var preload: bool
    var preloadActive: bool
    var preloadTimer: nat      // 0 when no timer runs
    var timersStarted: nat     // startTimer hands out timersStarted + 1
    var preloadFrame: int

    function PreloadWanted(): bool
      reads this
    {
      cacheEnabled && preload && preloadActive
    }

    /** A group that copies nothing: settings from the preferences, no file. */
    constructor (window: nat, cache: FileCache, proxy: nat, u8Conversion: bool, cacheEnabled: bool, preload: bool)
      ensures this.window == window && this.cache == cache
      ensures this.proxy == proxy && this.u8Conversion == u8Conversion
      ensures this.cacheEnabled == cacheEnabled && this.preload == preload
      ensures !preloadActive && preloadTimer == 0 && preloadFrame == 0 && layer == 0 && layers == []
      ensures image == None && !hasLoader
    {
      this.window := window;
      this.cache := cache;
      fileInfo := EMPTY_FILE_INFO;
      ioInfo := EMPTY_IO_INFO;
      image := None;
      hasLoader := false;
      layer := 0;
      layers := [];
      this.proxy := proxy;
      this.u8Conversion := u8Conversion;
      this.cacheEnabled := cacheEnabled;
      this.preload := preload;
      preloadActive := false;
      preloadTimer := 0;
      timersStarted := 0;
      preloadFrame := 0;
    }

    /** preloadUpdate: start a timer when preloading is wanted and none runs;
        stop the running one when it is not wanted. */
    method PreloadUpdate()
      modifies this`preloadTimer, this`timersStarted
      ensures TimerFollows(old(preloadTimer), PreloadWanted(), preloadTimer)
      ensures preloadTimer != old(preloadTimer) && preloadTimer != 0 ==>
        preloadTimer == timersStarted == old(timersStarted) + 1
    {
      if PreloadWanted() {
        if preloadTimer == 0 {
          timersStarted := timersStarted + 1;
          preloadTimer := timersStarted;
        }
      } else {
        if preloadTimer != 0 {
          preloadTimer := 0;
        }
      }
    }

    /** cacheDel: remove this window's items from the cache. */
    method CacheDel()
      modifies cache`items
      ensures cache.items == WithoutWindow(old(cache.items), window)
    {
      cache.ClearItems(window);
    }

    /** setLayer: an unchanged request does nothing; otherwise the layer is
        wrapped into the layer list, the window's cache items are removed and
        the timer updated. */
    method SetLayer(requested: int)
      modifies this`layer, this`preloadTimer, this`timersStarted, cache`items
      ensures requested == old(layer) ==>
        layer == old(layer) && preloadTimer == old(preloadTimer) && cache.items == old(cache.items)
      ensures requested != old(layer) ==>
        layer == WrappedLayer(requested, |layers|) && cache.items == WithoutWindow(old(cache.items), window) &&
        TimerFollows(old(preloadTimer), PreloadWanted(), preloadTimer)
    {
      if requested == layer {
        return;
      }
      layer := WrappedLayer(requested, |layers|);
      CacheDel();
      PreloadUpdate();
    }

    method LayerPrev()
      modifies this`layer, this`preloadTimer, this`timersStarted, cache`items
      ensures layer == WrappedLayer(old(layer) - 1, |layers|)
      ensures cache.items == WithoutWindow(old(cache.items), window)
    {
      SetLayer(layer - 1);
    }

    method LayerNext()
      modifies this`layer, this`preloadTimer, this`timersStarted, cache`items
      ensures layer == WrappedLayer(old(layer) + 1, |layers|)
      ensures cache.items == WithoutWindow(old(cache.items), window)
    {
      SetLayer(layer + 1);
    }

    method SetProxy(value: nat)
      modifies this`proxy, this`preloadTimer, this`timersStarted, cache`items
      ensures value == old(proxy) ==> preloadTimer == old(preloadTimer) && cache.items == old(cache.items)
      ensures proxy == value
      ensures value != old(proxy) ==>
        cache.items == WithoutWindow(old(cache.items), window) && TimerFollows(old(preloadTimer), PreloadWanted(), preloadTimer)
    {
      if value == proxy {
        return;
      }
      proxy := value;
      CacheDel();
      PreloadUpdate();
    }

    method SetU8Conversion(value: bool)
      modifies this`u8Conversion, this`preloadTimer, this`timersStarted, cache`items
      ensures value == old(u8Conversion) ==> preloadTimer == old(preloadTimer) && cache.items == old(cache.items)
      ensures u8Conversion == value
      ensures value != old(u8Conversion) ==>
        cache.items == WithoutWindow(old(cache.items), window) && TimerFollows(old(preloadTimer), PreloadWanted(), preloadTimer)
    {
      if value == u8Conversion {
        return;
      }
      u8Conversion := value;
      CacheDel();
      PreloadUpdate();
    }

    method SetCacheEnabled(value: bool)
      modifies this`cacheEnabled, this`preloadTimer, this`timersStarted, cache`items
      ensures value == old(cacheEnabled) ==> preloadTimer == old(preloadTimer) && cache.items == old(cache.items)
      ensures cacheEnabled == value
      ensures value != old(cacheEnabled) ==>
        cache.items == WithoutWindow(old(cache.items), window) && TimerFollows(old(preloadTimer), PreloadWanted(), preloadTimer)
    {
      if value == cacheEnabled {
        return;
      }
      cacheEnabled := value;
      CacheDel();
      PreloadUpdate();
    }

    /** setPreload, setPreloadActive and setPreloadFrame leave the cache alone. */
    method SetPreload(value: bool)
      modifies this`preload, this`preloadTimer, this`timersStarted
      ensures value == old(preload) ==> preloadTimer == old(preloadTimer)
      ensures preload == value
      ensures value != old(preload) ==> TimerFollows(old(preloadTimer), PreloadWanted(), preloadTimer)
    {
      if value == preload {
        return;
      }
      preload := value;
      PreloadUpdate();
    }

    method SetPreloadActive(value: bool)
      modifies this`preloadActive, this`preloadTimer, this`timersStarted
      ensures value == old(preloadActive) ==> preloadTimer == old(preloadTimer)
      ensures preloadActive == value
      ensures value != old(preloadActive) ==> TimerFollows(old(preloadTimer), PreloadWanted(), preloadTimer)
    {
      if value == preloadActive {
        return;
      }
      preloadActive := value;
      PreloadUpdate();
    }

    method SetPreloadFrame(value: int)
      modifies this`preloadFrame, this`preloadTimer, this`timersStarted
      ensures value == old(preloadFrame) ==> preloadTimer == old(preloadTimer)
      ensures preloadFrame == value
      ensures value != old(preloadFrame) ==> TimerFollows(old(preloadTimer), PreloadWanted(), preloadTimer)
    {
      if value == preloadFrame {
        return;
      }
      preloadFrame := value;
      PreloadUpdate();
    }

    /** image(frame): a cached frame is returned as it is; on a miss with a
        loader the frame is read (`loaded` is what the read leaves in the new
        image, errors included) and converted when u8 conversion is on; without
        a loader the previous image stays. After a miss a present image is cached
        when caching is enabled. `requested` is the frame asked of the loader; a
        frame index outside the frame list stops the model there, with nothing
        changed. */
    method GetImage(frame: int, loaded: Image, converted: seq<seq<byte>>) returns (r: Option<Image>, requested: Option<FrameLookup>)
      modifies this`image, cache`items
      ensures r == image
      ensures Key(window, frame) in old(cache.items) ==>
        r == Some(old(cache.items)[Key(window, frame)]) && requested == None && cache.items == old(cache.items)
      ensures Key(window, frame) !in old(cache.items) ==>
        requested == (if hasLoader then Some(FrameToRead(ioInfo.sequence.frames, frame)) else None)
      ensures Key(window, frame) !in old(cache.items) && hasLoader && FrameToRead(ioInfo.sequence.frames, frame).OutsideList? ==>
        image == old(image) && cache.items == old(cache.items)
      ensures Key(window, frame) !in old(cache.items) && !(hasLoader && FrameToRead(ioInfo.sequence.frames, frame).OutsideList?) ==>
        image == (if hasLoader then Some(LoadedImage(loaded, u8Conversion, converted)) else old(image)) &&
        (cacheEnabled && image.Some? ==>
          Key(window, frame) in cache.items && cache.items[Key(window, frame)] == image.value &&
          forall k :: k in cache.items && k != Key(window, frame) ==> k in old(cache.items) && cache.items[k] == old(cache.items)[k]) &&
        (!(cacheEnabled && image.Some?) ==> cache.items == old(cache.items))
    {
      var key := Key(window, frame);
      requested := None;
      if cache.HasItem(key) {
        image := Some(cache.Item(key));
        return image, requested;
      }
      if hasLoader {
        var lookup := FrameToRead(ioInfo.sequence.frames, frame);
        requested := Some(lookup);
        if lookup.OutsideList? {
          return image, requested;
        }
        var img := loaded;
        if u8Conversion {
          img := U8Converted(img, converted);
        }
        image := Some(img);
      }
      if cacheEnabled && image.Some? {
        cache.AddItem(key, image.value);
      }
      r := image;
    }

    /** timerEvent: scan for the next uncached frame; if it fits the budget,
        decode it (`loaded` and `readOk` describe the read) and cache it when
        the result is valid; otherwise stop the timer. A chosen frame outside the
        frame list stops the model there, with nothing changed. */
    method TimerEvent(loaded: Image, readOk: bool, converted: seq<seq<byte>>) returns (requested: Option<FrameLookup>)
      modifies this`preloadTimer, cache`items
      ensures var s := PreloadScan(old(cache.items), window, cache.maxSizeBytes, ioInfo, preloadFrame);
        var lookup := FrameToRead(ioInfo.sequence.frames, s.frame);
        (!s.preload ==> preloadTimer == 0 && cache.items == old(cache.items) && requested == None) &&
        (s.preload ==> preloadTimer == old(preloadTimer) && requested == (if hasLoader then Some(lookup) else None)) &&
        (s.preload && hasLoader && lookup.OutsideList? ==> cache.items == old(cache.items)) &&
        (s.preload && !(hasLoader && lookup.OutsideList?) ==>
          var img := if hasLoader then PreloadedImage(loaded, readOk, u8Conversion, converted) else EMPTY_IMAGE;
          (IsValid(img) ==>
            Key(window, s.frame) in cache.items && cache.items[Key(window, s.frame)] == img &&
            forall k :: k in cache.items && k != Key(window, s.frame) ==> k in old(cache.items) && cache.items[k] == old(cache.items)[k]) &&
          (!IsValid(img) ==> cache.items == old(cache.items)))
    {
      ghost var scan := PreloadScan(cache.items, window, cache.maxSizeBytes, ioInfo, preloadFrame);
      var maxBytes := cache.maxSizeBytes;
      var estimate := DataByteCount(ioInfo.info);
      var total := |ioInfo.sequence.frames|;
      var found := false;
      var byteCount: nat := 0;
      var frame := preloadFrame;
      var frameCount: nat := 0;
      while byteCount <= maxBytes && frameCount < total
        invariant frameCount <= total && !found
        invariant ScanFrom(cache.items, window, maxBytes, estimate, total, frame, byteCount, frameCount) == scan
        decreases total - frameCount
      {
        var key := Key(window, frame);
        if cache.HasItem(key) {
          byteCount := byteCount + ByteCount(cache.Item(key));
        } else {
          byteCount := byteCount + estimate;
          if byteCount <= maxBytes {
            found := true;
          }
          break;
        }
        frame := Wrap(frame + 1, 0, total - 1);
        frameCount := frameCount + 1;
      }
      assert scan.preload == found && scan.frame == frame;
      requested := None;
      if found {
        var img := EMPTY_IMAGE;
        if hasLoader {
          var lookup := FrameToRead(ioInfo.sequence.frames, frame);
          requested := Some(lookup);
          if lookup.OutsideList? {
            return;
          }
          img := loaded;
          if readOk && IsValid(img) && u8Conversion {
            img := U8Converted(img, converted);
          }
        }
        if IsValid(img) {
          cache.AddItem(Key(window, frame), img);
        }
      } else {
        preloadTimer := 0;
      }
    }

    /** open: remove the window's cache items and forget the file, its
        information, image and loader; load `f` when its name is not empty
        (`load` is what the codec registry returns); then select layer 0, list
        the layer names and update the timer. */
    method Open(f: FileInfo, load: Result<ImageIOInfo>)
      modifies this`fileInfo, this`ioInfo, this`image, this`hasLoader, this`layer, this`layers
      modifies this`preloadTimer, this`timersStarted, cache`items
      ensures cache.items == WithoutWindow(old(cache.items), window)
      ensures image == None && layer == 0 && layers == LayerNames(ioInfo)
      ensures Path(f) != "" && load.Ok? ==> hasLoader && fileInfo == f && ioInfo == load.value
      ensures !(Path(f) != "" && load.Ok?) ==> !hasLoader && fileInfo == EMPTY_FILE_INFO && ioInfo == EMPTY_IO_INFO
      ensures TimerFollows(old(preloadTimer), PreloadWanted(), preloadTimer)
    {
      CacheDel();
      fileInfo := EMPTY_FILE_INFO;
      ioInfo := EMPTY_IO_INFO;
      image := None;
      hasLoader := false;
      if Path(f) != "" && load.Ok? {
        hasLoader := true;
        ioInfo := load.value;
        fileInfo := f;
      }
      layer := 0;
      layers := [];
      var names := LayerNames(ioInfo);
      var i := 0;
      while i < LayerCount(ioInfo)
        invariant 0 <= i <= LayerCount(ioInfo) && layers == names[..i]
        modifies this`layers
      {
        layers := layers + [if i == 0 then ioInfo.info.layerName else ioInfo.extraLayers[i - 1].layerName];
        i := i + 1;
      }
      assert names[..i] == names;
      PreloadUpdate();
    }
  }
}
