/** src/capture/screenshot_image.cpp: painting a captured cursor over a screenshot. */
module CursorOverlay {
  import opened Wrappers
  import opened Grid
  import opened Orientation
  import opened ImageTurns

  // ---- the hotspot ----

  datatype Point = Point(x: int, y: int)

  /** The hotspot is a corner between pixels, so it turns with the image's edges, not its pixels. */
  function TurnedHotspot(code: int, width: int, height: int, p: Point): Point {
    if code == 1 then Point(height - p.y, p.x)
    else if code == 2 then Point(width - p.x, height - p.y)
    else if code == 3 then Point(p.y, width - p.x)
    else if code == 4 then Point(width - p.x, p.y)
    else if code == 5 then Point(height - p.y, width - p.x)
    else if code == 6 then Point(p.x, height - p.y)
    else if code == 7 then Point(p.y, p.x)
    else p
  }

  /** What a transform does to a displacement. */
  function Rotated(t: Transform, d: Point): Point {
    var dx := if t.flipped then -d.x else d.x;
    if t.turns == 0 then Point(dx, d.y)
    else if t.turns == 1 then Point(-d.y, dx)
    else if t.turns == 2 then Point(-dx, -d.y)
    else Point(d.y, -dx)
  }

  /** From a hotspot to the centre of a pixel, in half pixels. */
  function Offset(hotspot: Point, u: int, v: int): Point {
    Point(2 * u + 1 - 2 * hotspot.x, 2 * v + 1 - 2 * hotspot.y)
  }

  lemma RotatedThen(s: Transform, t: Transform, d: Point)
    requires s.Valid() && t.Valid()
    ensures Rotated(Then(s, t), d) == Rotated(t, Rotated(s, d))
  {
  }

  lemma RotatedKeepsLength(t: Transform, d: Point)
    ensures var r := Rotated(t, d); r.x * r.x + r.y * r.y == d.x * d.x + d.y * d.y
  {
  }

  /** The rewritten hotspot is the one point whose displacement to every pixel turns with the image. */
  lemma HotspotTurnsWithPixels(code: int, width: int, height: int, hotspot: Point, turned: Point, u: int, v: int)
    ensures var t := OutputTransform(code);
      Offset(turned, u, v) == Rotated(t, Offset(hotspot, t.PullX(u, v, width, height), t.PullY(u, v, width, height)))
      <==> turned == TurnedHotspot(code, width, height, hotspot)
  {
  }

  // ---- blending ----

  type Byte = b: int | 0 <= b < 256

  datatype Rgba = Rgba(r: Byte, g: Byte, b: Byte, a: Byte)

  lemma RoundingStays(sum: int, total: int, low: int, high: int)
    requires 0 < total && low * total <= sum <= high * total
    ensures low <= (sum + total / 2) / total <= high
  {
    var q := (sum + total / 2) / total;
    assert sum + total / 2 == q * total + (sum + total / 2) % total;
    NextMultiple(high, q, total);
    NextMultiple(q, low, total);
  }

  lemma WeightedBetween(a: int, b: int, weight: nat, remaining: nat)
    requires a <= b
    ensures a * (weight + remaining) <= a * weight + b * remaining <= b * (weight + remaining)
    ensures a * (weight + remaining) <= b * weight + a * remaining <= b * (weight + remaining)
  {
    MulLe(a, b, weight);
    MulLe(a, b, remaining);
    assert a * (weight + remaining) == a * weight + a * remaining;
    assert b * (weight + remaining) == b * weight + b * remaining;
  }

  /** The weighted mean of two channels, rounded to the nearest integer, lies between them. */
  function Mix(source: Byte, under: Byte, weight: nat, remaining: nat): (mixed: Byte)
    requires 0 < weight + remaining
    ensures source <= mixed <= under || under <= mixed <= source
  {
    var low, high := if source < under then source else under, if source < under then under else source;
    WeightedBetween(low, high, weight, remaining);
    RoundingStays(source * weight + under * remaining, weight + remaining, low, high);
    (source * weight + under * remaining + (weight + remaining) / 2) / (weight + remaining)
  }

  lemma MixIsNearest(source: Byte, under: Byte, weight: nat, remaining: nat)
    requires 0 < weight + remaining
    ensures var total, exact := weight + remaining, source * weight + under * remaining;
      -total <= 2 * (Mix(source, under, weight, remaining) * total - exact) <= total
  {
    var total, exact := weight + remaining, source * weight + under * remaining;
    assert exact + total / 2 == (exact + total / 2) / total * total + (exact + total / 2) % total;
  }

  /** What an alpha lets through of what is under it, in units of 1/255. */
  function Remaining(alpha: Byte, under: Byte): (remaining: nat)
    ensures under == 0 || alpha == 255 ==> remaining == 0
  {
    MulLe(0, under, 255 - alpha);
    under * (255 - alpha)
  }

  /** Painting never makes a pixel more transparent than either of the two. */
  function Cover(alpha: Byte, under: Byte): (cover: Byte)
    ensures alpha <= cover && under <= cover
  {
    assert under * (255 - alpha) == under * 255 - under * alpha;
    MulLe(under, 255, 255 - alpha);
    MulLe(under, 255, alpha);
    (alpha * 255 + Remaining(alpha, under) + 127) / 255
  }

  /** The cursor's pixel over the screenshot's. */
  function Over(src: Rgba, dst: Rgba): Rgba
    requires 0 < src.a
  {
    var weight, remaining := src.a * 255, Remaining(src.a, dst.a);
    Rgba(Mix(src.r, dst.r, weight, remaining), Mix(src.g, dst.g, weight, remaining),
         Mix(src.b, dst.b, weight, remaining), Cover(src.a, dst.a))
  }

  lemma MixAll(source: Byte, under: Byte, weight: nat)
    requires 0 < weight
    ensures Mix(source, under, weight, 0) == source
  {
    RoundingStays(source * weight, weight, source, source);
  }

  /** An opaque cursor pixel replaces what is under it, any pixel replaces a transparent one, and an
      opaque screenshot stays opaque. */
  lemma OverReplaces(src: Rgba, dst: Rgba)
    requires 0 < src.a
    ensures src.a == 255 || dst.a == 0 ==> Over(src, dst) == src
    ensures dst.a == 255 ==> Over(src, dst).a == 255
  {
    MixAll(src.r, dst.r, src.a * 255);
    MixAll(src.g, dst.g, src.a * 255);
    MixAll(src.b, dst.b, src.a * 255);
  }

  // ---- source over ----

  /** `value` times `total` is as near to `exact` as it can be. */
  predicate Nearest(value: int, total: int, exact: int) { -total <= 2 * (value * total - exact) <= total }

  /** Source-over on colours that are not premultiplied: each channel is the mean of both, weighed by the alpha of
      the source and by what it lets through of the other, and the alphas cover together. */
  predicate Composited(src: Rgba, dst: Rgba, out: Rgba) {
    var through := dst.a * (255 - src.a);
    var total := 255 * src.a + through;
    && Nearest(out.r, total, 255 * src.a * src.r + through * dst.r)
    && Nearest(out.g, total, 255 * src.a * src.g + through * dst.g)
    && Nearest(out.b, total, 255 * src.a * src.b + through * dst.b)
    && -127 <= 255 * out.a - total <= 127
  }

  lemma OverComposites(src: Rgba, dst: Rgba)
    requires 0 < src.a
    ensures Composited(src, dst, Over(src, dst))
  {
    var through := dst.a * (255 - src.a);
    assert Remaining(src.a, dst.a) == through;
    MixIsNearest(src.r, dst.r, src.a * 255, through);
    MixIsNearest(src.g, dst.g, src.a * 255, through);
    MixIsNearest(src.b, dst.b, src.a * 255, through);
    Reordered(src.a, src.r);
    Reordered(src.a, src.g);
    Reordered(src.a, src.b);
    Reordered(through, dst.r);
    Reordered(through, dst.g);
    Reordered(through, dst.b);
  }

  lemma Reordered(weight: int, channel: int)
    ensures channel * (weight * 255) == 255 * weight * channel && channel * weight == weight * channel
  {
  }

  /** Over an opaque background that is the rounded mean, and the background stays opaque. */
  lemma OpaqueMean(src: Rgba, dst: Rgba, out: Rgba)
    requires Composited(src, dst, out) && dst.a == 255
    ensures out.a == 255
    ensures -255 <= 2 * (255 * out.r - (src.a * src.r + (255 - src.a) * dst.r)) <= 255
    ensures -255 <= 2 * (255 * out.g - (src.a * src.g + (255 - src.a) * dst.g)) <= 255
    ensures -255 <= 2 * (255 * out.b - (src.a * src.b + (255 - src.a) * dst.b)) <= 255
  {
    OpaqueChannel(src.a, src.r, dst.r, out.r);
    OpaqueChannel(src.a, src.g, dst.g, out.g);
    OpaqueChannel(src.a, src.b, dst.b, out.b);
  }

  lemma OpaqueChannel(alpha: int, source: int, under: int, out: int)
    requires Nearest(out, 255 * alpha + 255 * (255 - alpha), 255 * alpha * source + 255 * (255 - alpha) * under)
    ensures -255 <= 2 * (255 * out - (alpha * source + (255 - alpha) * under)) <= 255
  {
    var mean := alpha * source + (255 - alpha) * under;
    assert 255 * alpha * source + 255 * (255 - alpha) * under == 255 * mean by {
      assert 255 * alpha * source == 255 * (alpha * source);
      assert 255 * (255 - alpha) * under == 255 * ((255 - alpha) * under);
    }
    assert out * (255 * 255) - 255 * mean == 255 * (255 * out - mean);
  }

  // ---- compositing ----

  predicate Solid(image: Picture<Rgba>) {
    0 < image.width && 0 < image.height ==> |image.pixels| == image.width * image.height
  }

  predicate Canvas(image: Picture<Rgba>) {
    0 <= image.width && 0 <= image.height && |image.pixels| == image.width * image.height
  }

  /** A cursor placed over a screenshot. */
  datatype Placed = Placed(cursor: Picture<Rgba>, left: int, top: int) {
    predicate Covers(u: int, v: int) { Inside(u - left, v - top, cursor.width, cursor.height) }

    function Sample(u: int, v: int): Rgba
      requires Solid(cursor) && Covers(u, v)
    {
      PxInRange(v - top, u - left, cursor.width, cursor.height);
      cursor.pixels[Px(v - top, u - left, cursor.width)]
    }
  }

  /** A pixel of the screenshot after painting. */
  function Blend(placed: Placed, u: int, v: int, under: Rgba): Rgba
    requires Solid(placed.cursor)
  {
    if placed.Covers(u, v) && placed.Sample(u, v).a != 0 then Over(placed.Sample(u, v), under) else under
  }

  /** The screenshot once the cursor has been painted up to row `y`, column `x`. */
  ghost function PaintedUpTo(under: Picture<Rgba>, placed: Placed, y: int, x: int): (r: seq<Rgba>)
    requires Canvas(under) && Solid(placed.cursor)
    ensures |r| == |under.pixels|
  {
    seq(|under.pixels|, p requires 0 <= p < |under.pixels| =>
      assert 0 < under.width;
      var u, v := p % under.width, p / under.width;
      if Earlier(v, u, y, x) then Blend(placed, u, v, under.pixels[p]) else under.pixels[p])
  }

  /** Exactly the covered pixels change, each to its blend with the cursor's pixel above it. */
  ghost predicate IsPainted(under: Picture<Rgba>, placed: Placed, after: Picture<Rgba>)
    requires Canvas(under) && Solid(placed.cursor)
  {
    && after.width == under.width && after.height == under.height && |after.pixels| == |under.pixels|
    && forall u, v :: Inside(u, v, under.width, under.height) ==>
         && 0 <= Px(v, u, under.width) < |under.pixels|
         && after.pixels[Px(v, u, under.width)] == Blend(placed, u, v, under.pixels[Px(v, u, under.width)])
  }

  lemma PaintedUpToAt(under: Picture<Rgba>, placed: Placed, y: int, x: int, u: int, v: int)
    requires Canvas(under) && Solid(placed.cursor) && Inside(u, v, under.width, under.height)
    ensures 0 <= Px(v, u, under.width) < |under.pixels|
    ensures PaintedUpTo(under, placed, y, x)[Px(v, u, under.width)] ==
            (var p := under.pixels[Px(v, u, under.width)]; if Earlier(v, u, y, x) then Blend(placed, u, v, p) else p)
  {
    PxInRange(v, u, under.width, under.height);
    PxParts(v, u, under.width);
  }

  /** No covered pixel lies between the two places. */
  ghost predicate NoneBetween(under: Picture<Rgba>, placed: Placed, y: int, x: int, y': int, x': int) {
    forall u, v :: Inside(u, v, under.width, under.height) && placed.Covers(u, v) ==>
      (Earlier(v, u, y, x) <==> Earlier(v, u, y', x'))
  }

  lemma PaintedSame(under: Picture<Rgba>, placed: Placed, y: int, x: int, y': int, x': int)
    requires Canvas(under) && Solid(placed.cursor) && NoneBetween(under, placed, y, x, y', x')
    ensures PaintedUpTo(under, placed, y, x) == PaintedUpTo(under, placed, y', x')
  {
    forall p | 0 <= p < |under.pixels|
      ensures PaintedUpTo(under, placed, y, x)[p] == PaintedUpTo(under, placed, y', x')[p]
    {
      assert 0 < under.width;
      PxCovers(p, under.width, under.height);
      PaintedUpToAt(under, placed, y, x, p % under.width, p / under.width);
      PaintedUpToAt(under, placed, y', x', p % under.width, p / under.width);
      assert Inside(p % under.width, p / under.width, under.width, under.height);
    }
  }

  lemma PaintStepElsewhere(under: Picture<Rgba>, placed: Placed, y: int, x: int, q: int)
    requires Canvas(under) && Solid(placed.cursor) && Inside(x, y, under.width, under.height)
    requires 0 <= q < |under.pixels| && q != Px(y, x, under.width)
    ensures PaintedUpTo(under, placed, y, x)[q] == PaintedUpTo(under, placed, y, x + 1)[q]
  {
    PxCovers(q, under.width, under.height);
  }

  lemma PointUpdate<T>(now: seq<T>, next: seq<T>, p: int, value: T)
    requires 0 <= p < |now| == |next| && next[p] == value
    requires forall q :: 0 <= q < |now| && q != p ==> now[q] == next[q]
    ensures now[p := value] == next
  {
  }

  lemma PaintStep(under: Picture<Rgba>, placed: Placed, y: int, x: int)
    requires Canvas(under) && Solid(placed.cursor) && Inside(x, y, under.width, under.height)
    ensures 0 <= Px(y, x, under.width) < |under.pixels|
    ensures var p, now := Px(y, x, under.width), PaintedUpTo(under, placed, y, x);
      && now[p] == under.pixels[p]
      && now[p := Blend(placed, x, y, now[p])] == PaintedUpTo(under, placed, y, x + 1)
  {
    PaintedUpToAt(under, placed, y, x, x, y);
    PaintedUpToAt(under, placed, y, x + 1, x, y);
    var p, now, next := Px(y, x, under.width), PaintedUpTo(under, placed, y, x), PaintedUpTo(under, placed, y, x + 1);
    forall q | 0 <= q < |now| && q != p ensures now[q] == next[q] {
      PaintStepElsewhere(under, placed, y, x, q);
    }
    PointUpdate(now, next, p, Blend(placed, x, y, now[p]));
  }

  lemma PaintedStart(under: Picture<Rgba>, placed: Placed)
    requires Canvas(under) && Solid(placed.cursor)
    ensures PaintedUpTo(under, placed, 0, 0) == under.pixels
    ensures IsPainted(under, placed, Picture(under.width, under.height, PaintedUpTo(under, placed, under.height, 0)))
  {
    forall p | 0 <= p < |under.pixels| ensures PaintedUpTo(under, placed, 0, 0)[p] == under.pixels[p] {
      assert 0 < under.width;
      PxCovers(p, under.width, under.height);
    }
    forall u, v | Inside(u, v, under.width, under.height)
      ensures 0 <= Px(v, u, under.width) < |under.pixels|
      ensures PaintedUpTo(under, placed, under.height, 0)[Px(v, u, under.width)] ==
              Blend(placed, u, v, under.pixels[Px(v, u, under.width)])
    {
      PaintedUpToAt(under, placed, under.height, 0, u, v);
    }
  }

  /** Every pixel of a painted screenshot: where the cursor has a pixel that is not transparent it is composited
      with that, elsewhere it is what it was. */
  lemma PaintedPixel(under: Picture<Rgba>, placed: Placed, after: Picture<Rgba>, u: int, v: int)
    requires Canvas(under) && Solid(placed.cursor) && IsPainted(under, placed, after)
    requires 0 <= u < under.width && 0 <= v < under.height
    ensures 0 <= v * under.width + u < |under.pixels| == |after.pixels|
    ensures var x, y, cursor := u - placed.left, v - placed.top, placed.cursor;
      var was, now := under.pixels[v * under.width + u], after.pixels[v * under.width + u];
      if 0 <= x < cursor.width && 0 <= y < cursor.height then
        && 0 <= y * cursor.width + x < |cursor.pixels|
        && var src := cursor.pixels[y * cursor.width + x];
           if src.a == 0 then now == was else Composited(src, was, now)
      else now == was
  {
    assert Inside(u, v, under.width, under.height);
    if placed.Covers(u, v) {
      PxInRange(v - placed.top, u - placed.left, placed.cursor.width, placed.cursor.height);
      if placed.Sample(u, v).a != 0 {
        OverComposites(placed.Sample(u, v), under.pixels[Px(v, u, under.width)]);
      }
    }
  }

  function Clamp(value: int, low: int, high: int): int
    requires low <= high
  {
    if value < low then low else if value > high then high else value
  }

  /** Blends one pixel of the cursor into the screenshot. */
  method PaintPixel(painted: array<Rgba>, cursor: array<Rgba>, ghost under: Picture<Rgba>, ghost placed: Placed,
                    width: int, cursorWidth: int, left: int, top: int, destX: int, destY: int)
    requires painted != cursor && Canvas(under) && Solid(placed.cursor) && width == under.width
    requires placed == Placed(Picture(cursorWidth, placed.cursor.height, cursor[..]), left, top)
    requires Inside(destX, destY, under.width, under.height) && placed.Covers(destX, destY)
    requires painted[..] == PaintedUpTo(under, placed, destY, destX)
    modifies painted
    ensures painted[..] == PaintedUpTo(under, placed, destY, destX + 1)
  {
    PaintStep(under, placed, destY, destX);
    PxInRange(destY - top, destX - left, cursorWidth, placed.cursor.height);
    var src := cursor[Px(destY - top, destX - left, cursorWidth)];
    if src.a != 0 {
      painted[Px(destY, destX, width)] := Over(src, painted[Px(destY, destX, width)]);
    }
  }

  /** Paints the cursor's image with its top left corner at (left, top), clipped to the screenshot. */
  method Paint(painted: CaptureImage<Rgba>, cursor: CaptureImage<Rgba>, left: int, top: int)
    requires painted.pixels != cursor.pixels && Canvas(painted.Contents()) && Solid(cursor.Contents())
    modifies painted.pixels
    ensures IsPainted(old(painted.Contents()), Placed(cursor.Contents(), left, top), painted.Contents())
  {
    var width, cursorWidth := painted.width, cursor.width;
    ghost var under, placed := painted.Contents(), Placed(cursor.Contents(), left, top);
    var x0, y0 := Clamp(left, 0, width), Clamp(top, 0, painted.height);
    var x1, y1 := Clamp(left + cursorWidth, 0, width), Clamp(top + cursor.height, 0, painted.height);
    PaintedStart(under, placed);
    PaintedSame(under, placed, 0, 0, y0, x0);
    var destY := y0;
    while destY < y1
      invariant y0 <= destY && (destY == y0 || destY <= y1)
      invariant painted.pixels[..] == PaintedUpTo(under, placed, destY, x0)
    {
      var destX := x0;
      while destX < x1
        invariant x0 <= destX && (destX == x0 || destX <= x1)
        invariant painted.pixels[..] == PaintedUpTo(under, placed, destY, destX)
      {
        PaintPixel(painted.pixels, cursor.pixels, under, placed, width, cursorWidth, left, top, destX, destY);
        destX := destX + 1;
      }
      PaintedSame(under, placed, destY, destX, destY + 1, x0);
      destY := destY + 1;
    }
    PaintedSame(under, placed, destY, x0, painted.height, 0);
  }

  /** The turned cursor, placed by its turned hotspot. */
  function PlacedCursor(was: Picture<Rgba>, code: int, hotspot: Point, at: Point): Placed
    requires Solid(was)
  {
    var turned := TurnedHotspot(code, was.width, was.height, hotspot);
    Placed(Apply(was, OutputTransform(code)), at.x - turned.x, at.y - turned.y)
  }

  /** Every pixel the cursor covers shows the cursor pixel whose displacement from the hotspot, turned
      with the image, is the displacement of the covered pixel from the cursor's position. */
  lemma CursorLandsOnItsHotspot(was: Picture<Rgba>, code: int, hotspot: Point, at: Point, u: int, v: int)
    requires Solid(was)
    requires PlacedCursor(was, code, hotspot, at).Covers(u, v)
    ensures
      var t, placed := OutputTransform(code), PlacedCursor(was, code, hotspot, at);
      var x, y := u - placed.left, v - placed.top;
      var su, sv := t.PullX(x, y, was.width, was.height), t.PullY(x, y, was.width, was.height);
      && Inside(su, sv, was.width, was.height) && 0 <= Px(sv, su, was.width) < |was.pixels|
      && Solid(placed.cursor) && placed.Sample(u, v) == was.pixels[Px(sv, su, was.width)]
      && Rotated(t, Offset(hotspot, su, sv)) == Offset(at, u, v)
  {
    var t, placed, w, h := OutputTransform(code), PlacedCursor(was, code, hotspot, at), was.width, was.height;
    var x, y := u - placed.left, v - placed.top;
    NotDegenerate(was, code, x, y);
    PullInside(t, x, y, w, h);
    PxInRange(t.PullY(x, y, w, h), t.PullX(x, y, w, h), w, h);
    OriginOf(t, x, y, w, h);
    HotspotTurnsWithPixels(code, w, h, hotspot, TurnedHotspot(code, w, h, hotspot), x, y);
  }

  lemma NotDegenerate(was: Picture<Rgba>, code: int, x: int, y: int)
    requires Solid(was)
    requires var turned := Apply(was, OutputTransform(code)); Inside(x, y, turned.width, turned.height)
    ensures !was.Degenerate()
  {
    if 0 < was.width && 0 < was.height {
      PxInRange(0, 0, was.width, was.height);
    }
  }

  datatype CapturedCursor = CapturedCursor(image: CaptureImage<Rgba>, visible: bool, x: int, y: int, hotspot: Point,
                                           transform: int)

  /** The alternative image exists exactly if the cursor is visible, and is the untouched background
      with the turned cursor painted so that its turned hotspot is at the cursor's position. */
  method ComposeCapturedCursor(background: CaptureImage<Rgba>, cursor: CapturedCursor)
    returns (alternative: Option<CaptureImage<Rgba>>)
    requires background != cursor.image && background.pixels != cursor.image.pixels
    requires Canvas(background.Contents()) && Solid(cursor.image.Contents())
    modifies cursor.image, cursor.image.pixels
    ensures background.Contents() == old(background.Contents())
    ensures alternative.Some? <==> cursor.visible
    ensures alternative.Some? ==>
      var placed := PlacedCursor(old(cursor.image.Contents()), cursor.transform, cursor.hotspot,
                                 Point(cursor.x, cursor.y));
      && fresh(alternative.value) && fresh(alternative.value.pixels) && Solid(placed.cursor)
      && IsPainted(background.Contents(), placed, alternative.value.Contents())
  {
    if !cursor.visible {
      return None;
    }
    var hotspot := TurnedHotspot(cursor.transform, cursor.image.width, cursor.image.height, cursor.hotspot);
    cursor.image.ApplyOutputTransform(cursor.transform);
    var source := background.pixels;
    var copy := new Rgba[source.Length](i requires 0 <= i < source.Length reads source => source[i]);
    assert copy[..] == background.pixels[..];
    var painted := new CaptureImage(background.width, background.height, copy, background.yInvert);
    Paint(painted, cursor.image, cursor.x - hotspot.x, cursor.y - hotspot.y);
    alternative := Some(painted);
  }
}
