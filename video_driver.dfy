/**
 * The integer parts of the video driver front end: pixel alignment of a
 * frame pitch, the square-pixel aspect ratio, the integer-scaled viewport,
 * and the cached-frame and stub-frame slots.
 */
module VideoDriver {
  import opened CArith

  // ---------------------------------------------------------------------
  // Pixel alignment

  /**
   * `video_pixel_get_alignment`: 1, 2 or 4 after the lowest set bit among
   * the pitch's three low bits, 8 when all three are clear.
   */
  function PixelGetAlignment(pitch: nat): (r: nat)
    ensures r == 1 || r == 2 || r == 4 || r == 8
  {
    if pitch % 2 == 1 then 1
    else if (pitch / 2) % 2 == 1 then 2
    else if (pitch / 4) % 2 == 1 then 4
    else 8
  }

  /** The alignment is the largest of 1, 2, 4 and 8 that divides the pitch. */
  lemma PixelAlignmentDivides(pitch: nat)
    ensures var r := PixelGetAlignment(pitch);
            pitch % r == 0 && (r < 8 ==> pitch % (2 * r) != 0)
  {
    var a := pitch / 2;
    var c := a / 2;
    assert pitch / 4 == c;
    if pitch % 2 == 1 {
    } else if a % 2 == 1 {
      assert pitch == 4 * c + 2;
    } else if c % 2 == 1 {
      assert pitch == 8 * (c / 2) + 4;
    } else {
      assert pitch == 8 * (c / 2);
    }
  }

  // ---------------------------------------------------------------------
  // Square pixels

  predicate DividesBoth(d: nat, width: nat, height: nat)
  {
    d > 0 && width % d == 0 && height % d == 0
  }

  function Min(a: nat, b: nat): nat
  {
    if a < b then a else b
  }

  /** The largest common divisor of `width` and `height` below `n`; 1 when there is none. */
  function CommonDivisorBelow(width: nat, height: nat, n: nat): nat
  {
    if n <= 2 then 1
    else if DividesBoth(n - 1, width, height) then n - 1
    else CommonDivisorBelow(width, height, n - 1)
  }

  /**
   * The divisor `video_driver_set_viewport_square_pixel` reduces by: the
   * largest common divisor strictly below the smaller side, so that a
   * square frame is not reduced to 1:1.
   */
  function SquareDivisor(width: nat, height: nat): nat
  {
    CommonDivisorBelow(width, height, Min(width, height))
  }

  lemma {:induction false} CommonDivisorBelowDivides(width: nat, height: nat, n: nat)
    requires width > 0 && height > 0
    ensures DividesBoth(CommonDivisorBelow(width, height, n), width, height)
    ensures CommonDivisorBelow(width, height, n) == 1 || CommonDivisorBelow(width, height, n) < n
  {
    if n > 2 && !DividesBoth(n - 1, width, height) {
      CommonDivisorBelowDivides(width, height, n - 1);
    }
  }

  lemma {:induction false} CommonDivisorBelowLargest(width: nat, height: nat, n: nat, k: nat)
    requires CommonDivisorBelow(width, height, n) < k < n
    ensures !DividesBoth(k, width, height)
  {
    if n > 2 && !DividesBoth(n - 1, width, height) && k < n - 1 {
      CommonDivisorBelowLargest(width, height, n - 1, k);
    }
  }

  /**
   * The reduction divides both sides, and no common divisor between it and
   * the smaller side exists.
   */
  lemma SquareDivisorSpec(width: nat, height: nat)
    requires width > 0 && height > 0
    ensures var d := SquareDivisor(width, height);
            DividesBoth(d, width, height) && (d == 1 || d < Min(width, height)) &&
            forall k :: d < k < Min(width, height) ==> !DividesBoth(k, width, height)
  {
    CommonDivisorBelowDivides(width, height, Min(width, height));
    forall k | SquareDivisor(width, height) < k < Min(width, height)
      ensures !DividesBoth(k, width, height)
    {
      CommonDivisorBelowLargest(width, height, Min(width, height), k);
    }
  }

  /** The numbers the square-pixel entry of the aspect-ratio table shows: `x:y (1:1 PAR)`. */
  class AspectRatioEntry {
    var aspectX: nat
    var aspectY: nat

    constructor()
      ensures aspectX == 0 && aspectY == 0
    {
      aspectX := 0;
      aspectY := 0;
    }
  }

  /**
   * `video_driver_set_viewport_square_pixel` for a core reporting a
   * `width` x `height` base geometry: a zero side leaves the entry alone;
   * otherwise the loop keeps the last common divisor below the smaller side
   * and the entry gets both sides divided by it.
   */
  method SetViewportSquarePixel(entry: AspectRatioEntry, width: nat, height: nat)
    modifies entry
    ensures width == 0 || height == 0 ==> entry.aspectX == old(entry.aspectX) && entry.aspectY == old(entry.aspectY)
    ensures width > 0 && height > 0 ==>
              var d := SquareDivisor(width, height);
              entry.aspectX * d == width && entry.aspectY * d == height
  {
    if width == 0 || height == 0 {
      return;
    }
    var len := Min(width, height);
    var highest := 1;
    var i := 1;
    while i < len
      invariant 1 <= i <= len
      invariant highest == CommonDivisorBelow(width, height, i)
    {
      if width % i == 0 && height % i == 0 {
        highest := i;
      }
      i := i + 1;
    }
    CommonDivisorBelowDivides(width, height, len);
    DivExact(width, highest);
    DivExact(height, highest);
    entry.aspectX := width / highest;
    entry.aspectY := height / highest;
  }

  lemma DivExact(n: nat, d: nat)
    requires d > 0 && n % d == 0
    ensures (n / d) * d == n
  {
  }

  /** A common divisor of two different sides is at most their difference. */
  lemma CommonDivisorAtMostDifference(width: nat, height: nat, k: nat)
    requires height < width && DividesBoth(k, width, height)
    ensures k <= width - height
  {
    var a, b := width / k, height / k;
    assert width == a * k && height == b * k;
    if a <= b {
      MulMonotone(a, b, k);
      assert false;
    }
    MulAtLeast(a - b, k);
    assert (a - b) * k == a * k - b * k;
  }

  lemma MulMonotone(a: nat, b: nat, k: nat)
    requires a <= b
    ensures a * k <= b * k
  {
    assert b * k == a * k + (b - a) * k;
  }

  /** 320x240 shows as 4:3, while a square 4x4 frame shows as 2:2. */
  lemma SquarePixelExamples()
    ensures SquareDivisor(320, 240) == 80 && 320 / 80 == 4 && 240 / 80 == 3
    ensures SquareDivisor(4, 4) == 2
  {
    SquareDivisorSpec(320, 240);
    CommonDivisorAtMostDifference(320, 240, SquareDivisor(320, 240));
    assert DividesBoth(80, 320, 240);
  }

  // ---------------------------------------------------------------------
  // Integer-scaled viewport

  /** `struct video_viewport`, as a value. */
  datatype ViewportInfo = ViewportInfo(x: int, y: int, width: nat, height: nat, fullWidth: nat, fullHeight: nat)

  /** The placement `video_viewport_get_scaled_integer` writes: an offset and a size. */
  datatype Placement = Placement(x: int, y: int, width: nat, height: nat)

  /** A viewport record that the video driver fills in place. */
  class Viewport {
    var x: int
    var y: int
    var width: nat
    var height: nat
    var fullWidth: nat
    var fullHeight: nat

    constructor()
      ensures Info() == ViewportInfo(0, 0, 0, 0, 0, 0)
    {
      x, y, width, height, fullWidth, fullHeight := 0, 0, 0, 0, 0, 0;
    }

    function Info(): ViewportInfo
      reads this
    {
      ViewportInfo(x, y, width, height, fullWidth, fullHeight)
    }
  }

  /** The base height used for integer scaling: the core's, or 1 when it reports none. */
  function BaseHeight(avBaseHeight: nat): nat
  {
    if avBaseHeight == 0 then 1 else avBaseHeight
  }

  /** The integer scale a window of `width` x `height` gets when both axes must scale alike. */
  function CommonScale(width: nat, height: nat, baseWidth: nat, baseHeight: nat): nat
    requires baseWidth > 0 && baseHeight > 0
  {
    Min(width / baseWidth, height / baseHeight)
  }

  /**
   * What `video_viewport_get_scaled_integer` writes for a window of
   * `width` x `height`. With the custom aspect ratio the viewport takes the
   * custom size and the offset is half the (possibly negative) padding,
   * divided as C divides. Otherwise, when the window holds at least one
   * base frame, the padding is what is left over after the largest integer
   * scale (the same one on both axes under `keepAspect`); a smaller window
   * gets no padding.
   */
  function ScaledInteger(width: nat, height: nat, aspectCustom: bool, customWidth: nat, customHeight: nat,
                         baseWidth: nat, avBaseHeight: nat, keepAspect: bool): Placement
    requires !aspectCustom && baseWidth == 0 ==> height < BaseHeight(avBaseHeight)
  {
    if aspectCustom then
      Placement(Quot(width - customWidth, 2), Quot(height - customHeight, 2), customWidth, customHeight)
    else
      var (paddingX, paddingY) := ScaledPadding(width, height, baseWidth, BaseHeight(avBaseHeight), keepAspect);
      Placement(paddingX / 2, paddingY / 2, width - paddingX, height - paddingY)
  }

  /**
   * The padding left over in a window holding at least one base frame:
   * what remains after the largest integer scale, the same one on both
   * axes under `keepAspect`. A smaller window gets none. It never exceeds
   * the window.
   */
  function ScaledPadding(width: nat, height: nat, baseWidth: nat, baseHeight: nat, keepAspect: bool): (r: (nat, nat))
    requires baseHeight > 0 && (baseWidth == 0 ==> height < baseHeight)
    ensures r.0 <= width && r.1 <= height
  {
    if width >= baseWidth && height >= baseHeight then
      if keepAspect then
        ScaledPaddingFits(width, baseWidth, height, baseHeight, keepAspect);
        var scale := CommonScale(width, height, baseWidth, baseHeight);
        (width - baseWidth * scale, height - baseHeight * scale)
      else
        (width % baseWidth, height % baseHeight)
    else (0, 0)
  }

  /** `video_viewport_get_scaled_integer` writes its placement into `vp`; a null `vp` is left alone. */
  method GetScaledInteger(vp: Viewport?, width: nat, height: nat, aspectCustom: bool, custom: ViewportInfo,
                          baseWidth: nat, avBaseHeight: nat, keepAspect: bool)
    requires !aspectCustom && baseWidth == 0 ==> height < BaseHeight(avBaseHeight)
    modifies vp
    ensures vp != null ==>
              var p := ScaledInteger(width, height, aspectCustom, custom.width, custom.height, baseWidth, avBaseHeight, keepAspect);
              vp.Info() == old(vp.Info()).(x := p.x, y := p.y, width := p.width, height := p.height)
  {
    if vp == null {
      return;
    }
    var paddingX: int, paddingY: int := 0, 0;
    var w, h := width, height;
    if aspectCustom {
      paddingX := width - custom.width;
      paddingY := height - custom.height;
      w := custom.width;
      h := custom.height;
    } else {
      var baseHeight := avBaseHeight;
      if baseHeight == 0 {
        baseHeight := 1;
      }
      var px, py := ScaledIntegerPadding(width, height, baseWidth, baseHeight, keepAspect);
      QuotNonNegative(px, 2);
      QuotNonNegative(py, 2);
      paddingX, paddingY := px, py;
      w := width - px;
      h := height - py;
    }
    vp.width := w;
    vp.height := h;
    vp.x := Quot(paddingX, 2);
    vp.y := Quot(paddingY, 2);
  }

  /** The padding computation of `video_viewport_get_scaled_integer` outside the custom aspect ratio. */
  method ScaledIntegerPadding(width: nat, height: nat, baseWidth: nat, baseHeight: nat, keepAspect: bool)
    returns (paddingX: nat, paddingY: nat)
    requires baseHeight > 0 && (baseWidth == 0 ==> height < baseHeight)
    ensures (paddingX, paddingY) == ScaledPadding(width, height, baseWidth, baseHeight, keepAspect)
  {
    paddingX, paddingY := 0, 0;
    if width >= baseWidth && height >= baseHeight {
      if keepAspect {
        ScaledPaddingFits(width, baseWidth, height, baseHeight, keepAspect);
        var maxScale := Min(width / baseWidth, height / baseHeight);
        paddingX := width - baseWidth * maxScale;
        paddingY := height - baseHeight * maxScale;
      } else {
        paddingX := width % baseWidth;
        paddingY := height % baseHeight;
      }
    }
  }

  lemma ScaledPaddingFits(width: nat, baseWidth: nat, height: nat, baseHeight: nat, keepAspect: bool)
    requires baseHeight > 0 && (baseWidth == 0 ==> height < baseHeight)
    requires width >= baseWidth && height >= baseHeight && keepAspect
    ensures baseWidth * CommonScale(width, height, baseWidth, baseHeight) <= width
    ensures baseHeight * CommonScale(width, height, baseWidth, baseHeight) <= height
  {
    var s := CommonScale(width, height, baseWidth, baseHeight);
    MulDivBelow(width, baseWidth, s);
    MulDivBelow(height, baseHeight, s);
  }

  /** A scale no larger than `n / b` keeps `b * s` within `n`. */
  lemma MulDivBelow(n: nat, b: nat, s: nat)
    requires b > 0 && s <= n / b
    ensures b * s <= n
  {
    assert b * s <= b * (n / b);
  }

  /**
   * Integer scale keeping the aspect: a window holding at least one base
   * frame shows the base frame scaled by one common factor of at least 1,
   * the largest at which it still fits on both axes, centred with half the
   * padding on the left and top.
   */
  lemma KeepAspectScaling(width: nat, height: nat, baseWidth: nat, avBaseHeight: nat)
    requires baseWidth > 0 && width >= baseWidth && height >= BaseHeight(avBaseHeight)
    ensures var p := ScaledInteger(width, height, false, 0, 0, baseWidth, avBaseHeight, true);
            var baseHeight := BaseHeight(avBaseHeight);
            exists s: nat :: 1 <= s && p.width == baseWidth * s && p.height == baseHeight * s &&
              p.width <= width && p.height <= height &&
              (baseWidth * (s + 1) > width || baseHeight * (s + 1) > height) &&
              p.x == (width - p.width) / 2 && p.y == (height - p.height) / 2
  {
    var baseHeight := BaseHeight(avBaseHeight);
    var s := CommonScale(width, height, baseWidth, baseHeight);
    ScaledPaddingFits(width, baseWidth, height, baseHeight, true);
    DivAtLeastOne(width, baseWidth);
    DivAtLeastOne(height, baseHeight);
    if s == width / baseWidth {
      DivNext(width, baseWidth);
    } else {
      DivNext(height, baseHeight);
    }
  }

  /** Independent integer scales: each axis is the largest multiple of its base side that fits the window. */
  lemma IndependentScaling(width: nat, height: nat, baseWidth: nat, avBaseHeight: nat)
    requires baseWidth > 0 && width >= baseWidth && height >= BaseHeight(avBaseHeight)
    ensures var p := ScaledInteger(width, height, false, 0, 0, baseWidth, avBaseHeight, false);
            var baseHeight := BaseHeight(avBaseHeight);
            p.width % baseWidth == 0 && baseWidth <= p.width <= width && width - p.width < baseWidth &&
            p.height % baseHeight == 0 && baseHeight <= p.height <= height && height - p.height < baseHeight &&
            p.x == (width - p.width) / 2 && p.y == (height - p.height) / 2
  {
    var baseHeight := BaseHeight(avBaseHeight);
    RoundedDown(width, baseWidth);
    RoundedDown(height, baseHeight);
  }

  /** A window smaller than one base frame is used whole, from the origin. */
  lemma SmallWindowUnscaled(width: nat, height: nat, baseWidth: nat, avBaseHeight: nat, keepAspect: bool)
    requires !(width >= baseWidth && height >= BaseHeight(avBaseHeight))
    ensures ScaledInteger(width, height, false, 0, 0, baseWidth, avBaseHeight, keepAspect) == Placement(0, 0, width, height)
  {
  }

  /**
   * The custom viewport keeps its size and is centred as C's truncating
   * division centres it: the offset is at most half a pixel off the middle,
   * and it is negative exactly when the custom size exceeds the window
   * by more than one pixel.
   */
  lemma CustomViewportCentred(width: nat, height: nat, customWidth: nat, customHeight: nat, baseWidth: nat,
                              avBaseHeight: nat, keepAspect: bool)
    ensures var p := ScaledInteger(width, height, true, customWidth, customHeight, baseWidth, avBaseHeight, keepAspect);
            p.width == customWidth && p.height == customHeight &&
            Abs(width - customWidth - 2 * p.x) <= 1 && Abs(height - customHeight - 2 * p.y) <= 1 &&
            (p.x < 0 <==> width + 1 < customWidth) && (p.y < 0 <==> height + 1 < customHeight)
  {
    QuotRemainder(width - customWidth, 2);
    QuotRemainder(height - customHeight, 2);
  }

  lemma DivAtLeastOne(n: nat, b: nat)
    requires 0 < b <= n
    ensures n / b >= 1
  {
  }

  lemma DivNext(n: nat, b: nat)
    requires b > 0
    ensures b * (n / b + 1) > n
  {
    assert b * (n / b + 1) == b * (n / b) + b;
  }

  lemma RoundedDown(n: nat, b: nat)
    requires 0 < b <= n
    ensures (n - n % b) % b == 0 && b <= n - n % b && n % b < b
  {
    var q := n / b;
    assert n - n % b == q * b;
    DivAtLeastOne(n, b);
    MulAtLeast(q, b);
    MulMod(q, b);
  }

  lemma MulMod(q: nat, b: nat)
    requires b > 0
    ensures (q * b) % b == 0
  {
    var d, r := (q * b) / b, (q * b) % b;
    assert (q - d) * b == r;
    if q - d >= 1 {
      MulAtLeast(q - d, b);
      assert false;
    } else if q - d <= -1 {
      assert false;
    }
  }

  // ---------------------------------------------------------------------
  // Cached frame and stub frame

  /** The address a frame pointer holds; 0 stands for NULL. */
  const NULL: nat := 0

  /** `video_driver_state.frame_cache`: the last frame handed to the driver, for redraws. */
  datatype FrameCache = FrameCache(data: nat, width: nat, height: nat, pitch: nat)

  /** The frame entry point of the video driver: the null driver's stub, or a real driver's. */
  datatype FrameFn = NullFrame | DriverFrame(id: nat)

  /** `frame_bak`: the frame entry point saved while the stub is installed. */
  datatype FrameBackup = NoBackup | Saved(fn: FrameFn)

  /** `video_driver_cached_frame_set`: a NULL frame keeps the cached pointer, the geometry is always stored. */
  function CacheSet(cache: FrameCache, data: nat, width: nat, height: nat, pitch: nat): FrameCache
  {
    FrameCache(if data != NULL then data else cache.data, width, height, pitch)
  }

  /** `video_driver_set_stub_frame`: save the current entry point and install the null driver's. */
  function StubSet(frame: FrameFn, backup: FrameBackup): (FrameFn, FrameBackup)
  {
    (NullFrame, Saved(frame))
  }

  /** `video_driver_unset_stub_frame`: restore a saved entry point if there is one, then drop the backup. */
  function StubUnset(frame: FrameFn, backup: FrameBackup): (FrameFn, FrameBackup)
  {
    (if backup.Saved? then backup.fn else frame, NoBackup)
  }

  /** What a later `video_driver_cached_frame_get` returns is what the set stored; a NULL frame keeps the old one. */
  lemma CachedFrameSetGet(cache: FrameCache, data: nat, width: nat, height: nat, pitch: nat)
    ensures var c := CacheSet(cache, data, width, height, pitch);
            c.width == width && c.height == height && c.pitch == pitch &&
            (data != NULL ==> c.data == data) && (data == NULL ==> c.data == cache.data)
  {
  }

  /** Installing the stub and removing it restores the driver's entry point and leaves no backup. */
  lemma StubRoundTrip(frame: FrameFn, backup: FrameBackup)
    ensures var (f, b) := StubSet(frame, backup);
            StubUnset(f, b) == (frame, NoBackup)
  {
  }

  /** Removing the stub when none is installed changes nothing. */
  lemma StubUnsetIdle(frame: FrameFn)
    ensures StubUnset(frame, NoBackup) == (frame, NoBackup)
  {
  }

  /**
   * Installing the stub twice saves the stub over the driver's entry point,
   * so removing it leaves the null frame in place.
   */
  lemma StubTwiceLosesDriverFrame(frame: FrameFn, backup: FrameBackup)
    ensures var (f1, b1) := StubSet(frame, backup);
            var (f2, b2) := StubSet(f1, b1);
            StubUnset(f2, b2) == (NullFrame, NoBackup)
  {
  }

  /** The front end's video state that these calls touch. */
  class VideoState {
    var frameCache: FrameCache
    var frame: FrameFn
    var frameBak: FrameBackup

    constructor(driverFrame: FrameFn)
      ensures frameCache == FrameCache(NULL, 0, 0, 0) && frame == driverFrame && frameBak == NoBackup
    {
      frameCache := FrameCache(NULL, 0, 0, 0);
      frame := driverFrame;
      frameBak := NoBackup;
    }

    /** `video_driver_set_cached_frame_ptr`: NULL is ignored. */
    method SetCachedFramePtr(data: nat)
      modifies this
      ensures frameCache == old(frameCache).(data := if data != NULL then data else old(frameCache.data))
      ensures frame == old(frame) && frameBak == old(frameBak)
    {
      if data != NULL {
        frameCache := frameCache.(data := data);
      }
    }

    /** `video_driver_cached_frame_set` */
    method CachedFrameSet(data: nat, width: nat, height: nat, pitch: nat)
      modifies this
      ensures frameCache == CacheSet(old(frameCache), data, width, height, pitch)
      ensures frame == old(frame) && frameBak == old(frameBak)
    {
      SetCachedFramePtr(data);
      frameCache := frameCache.(width := width, height := height, pitch := pitch);
    }

    /** `video_driver_cached_frame_get`, with every out-pointer present. */
    method CachedFrameGet() returns (data: nat, width: nat, height: nat, pitch: nat)
      ensures FrameCache(data, width, height, pitch) == frameCache
    {
      data, width, height, pitch := frameCache.data, frameCache.width, frameCache.height, frameCache.pitch;
    }

    /** `video_driver_set_stub_frame` */
    method SetStubFrame()
      modifies this
      ensures (frame, frameBak) == StubSet(old(frame), old(frameBak))
      ensures frameCache == old(frameCache)
    {
      frameBak := Saved(frame);
      frame := NullFrame;
    }

    /** `video_driver_unset_stub_frame` */
    method UnsetStubFrame()
      modifies this
      ensures (frame, frameBak) == StubUnset(old(frame), old(frameBak))
      ensures frameCache == old(frameCache)
    {
      if frameBak.Saved? {
        frame := frameBak.fn;
      }
      frameBak := NoBackup;
    }
  }
}
