/** src/capture/screencopy_util.cpp: the loops that turn a capture in its buffer. */
module ImageTurns {
  import opened Grid
  import opened Orientation

  /** Row `v`, column `u` comes before row `y`, column `x` in reading order. */
  predicate Earlier(v: int, u: int, y: int, x: int) { v < y || (v == y && u < x) }

  // ---- swapping in place ----

  /** The transforms that exchange pixels in pairs. */
  predicate Pairs(t: Transform) { t.turns == 0 || t.turns == 2 }

  lemma MateOfMate(t: Transform, u: int, v: int, w: int, h: int)
    requires Pairs(t)
    ensures t.PullX(t.PullX(u, v, w, h), t.PullY(u, v, w, h), w, h) == u
    ensures t.PullY(t.PullX(u, v, w, h), t.PullY(u, v, w, h), w, h) == v
  {
  }

  /** Either pixel of the pair has been passed on the way to row `y`, column `x`. */
  predicate Passed(t: Transform, u: int, v: int, w: int, h: int, y: int, x: int) {
    Earlier(v, u, y, x) || Earlier(t.PullY(u, v, w, h), t.PullX(u, v, w, h), y, x)
  }

  function SweptFrom(t: Transform, p: int, w: int, h: int, y: int, x: int): int
    requires 0 < w && 0 < h && Pairs(t)
  {
    if Passed(t, p % w, p / w, w, h, y, x) then Origin(t, p, w, h) else p
  }

  /** The buffer once every pair up to row `y`, column `x` has been exchanged. */
  ghost function Swept<T>(before: seq<T>, t: Transform, w: int, h: int, y: int, x: int): (r: seq<T>)
    requires 0 < w && 0 < h && |before| == w * h && Pairs(t)
    ensures |r| == |before|
  {
    seq(|before|, p requires 0 <= p < |before| =>
      OriginInRange(t, p, w, h); before[SweptFrom(t, p, w, h, y, x)])
  }

  lemma SweptAt<T>(before: seq<T>, t: Transform, w: int, h: int, y: int, x: int, u: int, v: int)
    requires 0 < w && 0 < h && |before| == w * h && Pairs(t) && Inside(u, v, w, h)
    ensures 0 <= Px(v, u, w) < |before| && 0 <= Px(t.PullY(u, v, w, h), t.PullX(u, v, w, h), w) < |before|
    ensures Swept(before, t, w, h, y, x)[Px(v, u, w)] ==
            before[if Passed(t, u, v, w, h, y, x) then Px(t.PullY(u, v, w, h), t.PullX(u, v, w, h), w) else Px(v, u, w)]
  {
    PullInside(t, u, v, w, h);
    PxInRange(v, u, w, h);
    PxInRange(t.PullY(u, v, w, h), t.PullX(u, v, w, h), w, h);
    PxParts(v, u, w);
    OriginOf(t, u, v, w, h);
  }

  lemma SweptStart<T>(before: seq<T>, t: Transform, w: int, h: int)
    requires 0 < w && 0 < h && |before| == w * h && Pairs(t)
    ensures Swept(before, t, w, h, 0, 0) == before
  {
    forall p | 0 <= p < |before| ensures Swept(before, t, w, h, 0, 0)[p] == before[p] {
      PxCovers(p, w, h);
      PullInside(t, p % w, p / w, w, h);
      SweptAt(before, t, w, h, 0, 0, p % w, p / w);
    }
  }

  lemma SweptEnd<T>(before: seq<T>, t: Transform, w: int, h: int)
    requires 0 < w && 0 < h && |before| == w * h && Pairs(t)
    ensures Picture(w, h, Swept(before, t, w, h, h, 0)) == Apply(Picture(w, h, before), t)
  {
    forall p | 0 <= p < |before| ensures Swept(before, t, w, h, h, 0)[p] == Apply(Picture(w, h, before), t).pixels[p] {
      PxCovers(p, w, h);
      OriginInRange(t, p, w, h);
    }
  }

  /** Between the two places there is only the far end of pairs already passed. */
  ghost predicate NothingBetween(t: Transform, w: int, h: int, y: int, x: int, y': int, x': int) {
    && (y < y' || (y == y' && x <= x'))
    && forall u, v :: Inside(u, v, w, h) && !Earlier(v, u, y, x) && Earlier(v, u, y', x') ==>
         || Earlier(t.PullY(u, v, w, h), t.PullX(u, v, w, h), y, x)
         || (t.PullX(u, v, w, h) == u && t.PullY(u, v, w, h) == v)
  }

  lemma SweptSame<T>(before: seq<T>, t: Transform, w: int, h: int, y: int, x: int, y': int, x': int)
    requires 0 < w && 0 < h && |before| == w * h && Pairs(t) && NothingBetween(t, w, h, y, x, y', x')
    ensures Swept(before, t, w, h, y, x) == Swept(before, t, w, h, y', x')
  {
    forall p | 0 <= p < |before| ensures Swept(before, t, w, h, y, x)[p] == Swept(before, t, w, h, y', x')[p] {
      PxCovers(p, w, h);
      var u, v := p % w, p / w;
      SweptAt(before, t, w, h, y, x, u, v);
      SweptAt(before, t, w, h, y', x', u, v);
      PullInside(t, u, v, w, h);
      MateOfMate(t, u, v, w, h);
      assert Inside(u, v, w, h) && Inside(t.PullX(u, v, w, h), t.PullY(u, v, w, h), w, h);
    }
  }

  lemma SwapStepAt<T>(before: seq<T>, t: Transform, w: int, h: int, y: int, x: int, u: int, v: int)
    requires 0 < w && 0 < h && |before| == w * h && Pairs(t) && Inside(x, y, w, h) && Inside(u, v, w, h)
    requires Earlier(y, x, t.PullY(x, y, w, h), t.PullX(x, y, w, h))
    ensures 0 <= Px(v, u, w) < w * h
    ensures var mx, my, now, next :=
              t.PullX(x, y, w, h), t.PullY(x, y, w, h), Swept(before, t, w, h, y, x), Swept(before, t, w, h, y, x + 1);
      && 0 <= Px(y, x, w) < w * h && 0 <= Px(my, mx, w) < w * h
      && next[Px(v, u, w)] == if v == y && u == x then now[Px(my, mx, w)]
                              else if v == my && u == mx then now[Px(y, x, w)] else now[Px(v, u, w)]
  {
    var mx, my := t.PullX(x, y, w, h), t.PullY(x, y, w, h);
    PullInside(t, x, y, w, h);
    MateOfMate(t, x, y, w, h);
    MateOfMate(t, u, v, w, h);
    SweptAt(before, t, w, h, y, x, x, y);
    SweptAt(before, t, w, h, y, x, mx, my);
    SweptAt(before, t, w, h, y, x, u, v);
    SweptAt(before, t, w, h, y, x + 1, u, v);
  }

  function Swapped<T>(s: seq<T>, i: int, j: int): (r: seq<T>)
    requires 0 <= i < |s| && 0 <= j < |s|
    ensures |r| == |s|
  {
    s[i := s[j]][j := s[i]]
  }

  lemma SwapStep<T>(before: seq<T>, t: Transform, w: int, h: int, y: int, x: int)
    requires 0 < w && 0 < h && |before| == w * h && Pairs(t) && Inside(x, y, w, h)
    requires Earlier(y, x, t.PullY(x, y, w, h), t.PullX(x, y, w, h))
    ensures 0 <= Px(y, x, w) < w * h && 0 <= Px(t.PullY(x, y, w, h), t.PullX(x, y, w, h), w) < w * h
    ensures Swapped(Swept(before, t, w, h, y, x), Px(y, x, w), Px(t.PullY(x, y, w, h), t.PullX(x, y, w, h), w))
         == Swept(before, t, w, h, y, x + 1)
  {
    var mx, my := t.PullX(x, y, w, h), t.PullY(x, y, w, h);
    PullInside(t, x, y, w, h);
    PxInRange(y, x, w, h);
    PxInRange(my, mx, w, h);
    var swapped := Swapped(Swept(before, t, w, h, y, x), Px(y, x, w), Px(my, mx, w));
    forall p | 0 <= p < |before| ensures swapped[p] == Swept(before, t, w, h, y, x + 1)[p] {
      PxCovers(p, w, h);
      var u, v := p % w, p / w;
      SwapStepAt(before, t, w, h, y, x, u, v);
      PxInjective(v, u, y, x, w);
      PxInjective(v, u, my, mx, w);
      PxInjective(y, x, my, mx, w);
    }
  }

  // ---- copying into a new buffer ----

  /** The new buffer once every pixel before row `y`, column `x` of the old one has been copied. */
  ghost function Copied<T>(before: seq<T>, blank: seq<T>, t: Transform, w: int, h: int, y: int, x: int): (r: seq<T>)
    requires 0 < w && 0 < h && |before| == |blank| == w * h && t.Valid()
    ensures |r| == |before|
  {
    seq(|before|, p requires 0 <= p < |before| =>
      OriginInRange(t, p, w, h);
      var w' := t.Width(w, h);
      if Earlier(t.PullY(p % w', p / w', w, h), t.PullX(p % w', p / w', w, h), y, x) then before[Origin(t, p, w, h)]
      else blank[p])
  }

  lemma CopiedAt<T>(before: seq<T>, blank: seq<T>, t: Transform, w: int, h: int, y: int, x: int, u: int, v: int)
    requires 0 < w && 0 < h && |before| == |blank| == w * h && t.Valid() && Inside(u, v, t.Width(w, h), t.Height(w, h))
    ensures 0 <= Px(v, u, t.Width(w, h)) < |before| && 0 <= Px(t.PullY(u, v, w, h), t.PullX(u, v, w, h), w) < |before|
    ensures Copied(before, blank, t, w, h, y, x)[Px(v, u, t.Width(w, h))] ==
            if Earlier(t.PullY(u, v, w, h), t.PullX(u, v, w, h), y, x) then
              before[Px(t.PullY(u, v, w, h), t.PullX(u, v, w, h), w)]
            else blank[Px(v, u, t.Width(w, h))]
  {
    PullInside(t, u, v, w, h);
    PxInRange(t.PullY(u, v, w, h), t.PullX(u, v, w, h), w, h);
    PxParts(v, u, t.Width(w, h));
    OriginOf(t, u, v, w, h);
  }

  lemma PullInjective(t: Transform, u: int, v: int, x: int, y: int, w: int, h: int)
    requires t.PullX(u, v, w, h) == t.PullX(x, y, w, h) && t.PullY(u, v, w, h) == t.PullY(x, y, w, h)
    ensures u == x && v == y
  {
  }

  /** Copying the pixel at row `y`, column `x` to where the transform puts it. */
  lemma CopyStep<T>(before: seq<T>, blank: seq<T>, t: Transform, w: int, h: int, y: int, x: int, dx: int, dy: int)
    requires 0 < w && 0 < h && |before| == |blank| == w * h && t.Valid() && Inside(x, y, w, h)
    requires t.PullX(dx, dy, w, h) == x && t.PullY(dx, dy, w, h) == y
    ensures 0 <= Px(dy, dx, t.Width(w, h)) < w * h && 0 <= Px(y, x, w) < w * h
    ensures Copied(before, blank, t, w, h, y, x)[Px(dy, dx, t.Width(w, h)) := before[Px(y, x, w)]]
         == Copied(before, blank, t, w, h, y, x + 1)
  {
    var w', h' := t.Width(w, h), t.Height(w, h);
    PullInside(t, dx, dy, w, h);
    CopiedAt(before, blank, t, w, h, y, x, dx, dy);
    var now, next := Copied(before, blank, t, w, h, y, x), Copied(before, blank, t, w, h, y, x + 1);
    SameArea(t, w, h);
    forall p | 0 <= p < |before| ensures now[Px(dy, dx, w') := before[Px(y, x, w)]][p] == next[p] {
      PxCovers(p, w', h');
      var u, v := p % w', p / w';
      CopiedAt(before, blank, t, w, h, y, x, u, v);
      CopiedAt(before, blank, t, w, h, y, x + 1, u, v);
      PxInjective(v, u, dy, dx, w');
      if t.PullX(u, v, w, h) == x && t.PullY(u, v, w, h) == y {
        PullInjective(t, u, v, dx, dy, w, h);
      }
    }
  }

  lemma CopiedRow<T>(before: seq<T>, blank: seq<T>, t: Transform, w: int, h: int, y: int)
    requires 0 < w && 0 < h && |before| == |blank| == w * h && t.Valid()
    ensures Copied(before, blank, t, w, h, y, w) == Copied(before, blank, t, w, h, y + 1, 0)
    ensures Copied(before, blank, t, w, h, 0, 0) == blank
    ensures Picture(t.Width(w, h), t.Height(w, h), Copied(before, blank, t, w, h, h, 0)) ==
            Apply(Picture(w, h, before), t)
  {
    var w', h' := t.Width(w, h), t.Height(w, h);
    SameArea(t, w, h);
    forall p | 0 <= p < |before|
      ensures Copied(before, blank, t, w, h, y, w)[p] == Copied(before, blank, t, w, h, y + 1, 0)[p]
      ensures Copied(before, blank, t, w, h, 0, 0)[p] == blank[p]
      ensures Copied(before, blank, t, w, h, h, 0)[p] == Apply(Picture(w, h, before), t).pixels[p]
    {
      PxCovers(p, w', h');
      PullInside(t, p % w', p / w', w, h);
      OriginInRange(t, p, w, h);
    }
  }

  // ---- a captured image ----

  /** One pixel swap of a pass. */
  method SwapPixels<T>(pixels: array<T>, t: Transform, w: int, h: int, y: int, x: int, ghost before: seq<T>)
    requires 0 < w && 0 < h && |before| == w * h && Pairs(t) && Inside(x, y, w, h)
    requires Earlier(y, x, t.PullY(x, y, w, h), t.PullX(x, y, w, h))
    requires pixels[..] == Swept(before, t, w, h, y, x)
    modifies pixels
    ensures pixels[..] == Swept(before, t, w, h, y, x + 1)
  {
    SwapStep(before, t, w, h, y, x);
    var i, j := Px(y, x, w), Px(t.PullY(x, y, w, h), t.PullX(x, y, w, h), w);
    pixels[i], pixels[j] := pixels[j], pixels[i];
  }

  /** wl_output_transform, as the compositor numbers it. */
  function OutputTransform(code: int): (t: Transform)
    ensures t.Valid()
  {
    if code == 1 then TURN_90
    else if code == 2 then TURN_180
    else if code == 3 then TURN_270
    else if code == 4 then FLIPPED
    else if code == 5 then FLIPPED_90
    else if code == 6 then FLIPPED_180
    else if code == 7 then FLIPPED_270
    else NORMAL
  }

  /** Where the pixel in column `x` and row `y` goes, and how wide the image is then. */
  function Destination(code: int, w: int, h: int, x: int, y: int): (int, int, int) {
    match code
    case 1 => (h - 1 - y, x, h)
    case 2 => (w - 1 - x, h - 1 - y, w)
    case 3 => (y, w - 1 - x, h)
    case 4 => (w - 1 - x, y, w)
    case 5 => (h - 1 - y, w - 1 - x, h)
    case 6 => (x, h - 1 - y, w)
    case 7 => (y, x, h)
    case _ => (x, y, w)
  }

  /** Pixel by pixel: a quarter turn clockwise takes the top row to the right column, a flip mirrors every row,
      and so on for all eight codes. */
  lemma PixelGoesTo<T>(before: Picture<T>, code: int, x: int, y: int)
    requires before.Valid() && !before.Degenerate() && 0 <= x < before.width && 0 <= y < before.height
    ensures var after, (x', y', w') := Apply(before, OutputTransform(code)),
            Destination(code, before.width, before.height, x, y);
      && after.width == w' && after.width * after.height == before.width * before.height
      && 0 <= y' * w' + x' < |after.pixels| && 0 <= y * before.width + x < |before.pixels|
      && after.pixels[y' * w' + x'] == before.pixels[y * before.width + x]
  {
    var t, w, h := OutputTransform(code), before.width, before.height;
    var (x', y', w') := Destination(code, w, h, x, y);
    SameArea(t, w, h);
    OriginOf(t, x', y', w, h);
    PxInRange(y, x, w, h);
  }

  class CaptureImage<T(0)> {
    var width: int
    var height: int
    var pixels: array<T>
    var yInvert: bool

    constructor (width: int, height: int, pixels: array<T>, yInvert: bool)
      ensures this.width == width && this.height == height && this.pixels == pixels && this.yInvert == yInvert
    {
      this.width, this.height, this.pixels, this.yInvert := width, height, pixels, yInvert;
    }

    ghost function Contents(): Picture<T>
      reads this, pixels
    {
      Picture(width, height, pixels[..])
    }

    predicate IsDegenerate()
      reads this, pixels
      ensures IsDegenerate() <==> Contents().Degenerate()
    {
      width <= 0 || height <= 0 || pixels.Length == 0
    }

    method FlipHorizontal()
      requires Contents().Valid()
      modifies pixels
      ensures Contents() == Apply(old(Contents()), FLIPPED)
    {
      if IsDegenerate() {
        return;
      }
      var w, h := width, height;
      ghost var before := pixels[..];
      SweptStart(before, FLIPPED, w, h);
      for y := 0 to h
        invariant pixels[..] == Swept(before, FLIPPED, w, h, y, 0)
      {
        for x := 0 to w / 2
          invariant pixels[..] == Swept(before, FLIPPED, w, h, y, x)
        {
          SwapPixels(pixels, FLIPPED, w, h, y, x, before);
        }
        SweptSame(before, FLIPPED, w, h, y, w / 2, y + 1, 0);
      }
      SweptEnd(before, FLIPPED, w, h);
    }

    method FlipVertical()
      requires Contents().Valid()
      modifies pixels
      ensures Contents() == Apply(old(Contents()), FLIPPED_180)
    {
      if IsDegenerate() {
        return;
      }
      var w, h := width, height;
      ghost var before := pixels[..];
      SweptStart(before, FLIPPED_180, w, h);
      for y := 0 to h / 2
        invariant pixels[..] == Swept(before, FLIPPED_180, w, h, y, 0)
      {
        for x := 0 to w
          invariant pixels[..] == Swept(before, FLIPPED_180, w, h, y, x)
        {
          SwapPixels(pixels, FLIPPED_180, w, h, y, x, before);
        }
        SweptSame(before, FLIPPED_180, w, h, y, w, y + 1, 0);
      }
      SweptSame(before, FLIPPED_180, w, h, h / 2, 0, h, 0);
      SweptEnd(before, FLIPPED_180, w, h);
    }

    /** The guard swaps every pair exactly once. */
    method Rotate180()
      requires Contents().Valid()
      modifies pixels
      ensures Contents() == Apply(old(Contents()), TURN_180)
    {
      if IsDegenerate() {
        return;
      }
      var w, h := width, height;
      ghost var before := pixels[..];
      SweptStart(before, TURN_180, w, h);
      for y := 0 to h
        invariant pixels[..] == Swept(before, TURN_180, w, h, y, 0)
      {
        for x := 0 to w
          invariant pixels[..] == Swept(before, TURN_180, w, h, y, x)
        {
          var mirrorX, mirrorY := w - 1 - x, h - 1 - y;
          if mirrorY < y || (mirrorY == y && mirrorX <= x) {
            SweptSame(before, TURN_180, w, h, y, x, y, x + 1);
          } else {
            SwapPixels(pixels, TURN_180, w, h, y, x, before);
          }
        }
        SweptSame(before, TURN_180, w, h, y, w, y + 1, 0);
      }
      SweptEnd(before, TURN_180, w, h);
    }

    method RotateCw90()
      requires Contents().Valid()
      modifies this`width, this`height, this`pixels
      ensures Contents() == Apply(old(Contents()), TURN_90)
      ensures pixels == old(pixels) || fresh(pixels)
    {
      if IsDegenerate() {
        return;
      }
      var srcW, srcH, source := width, height, pixels;
      var dstW, dstH := srcH, srcW;
      SameArea(TURN_90, srcW, srcH);
      var rotated := new T[dstW * dstH];
      ghost var blank := rotated[..];
      CopiedRow(source[..], blank, TURN_90, srcW, srcH, 0);
      for srcY := 0 to srcH
        invariant rotated[..] == Copied(source[..], blank, TURN_90, srcW, srcH, srcY, 0)
      {
        for srcX := 0 to srcW
          invariant rotated[..] == Copied(source[..], blank, TURN_90, srcW, srcH, srcY, srcX)
        {
          var dstX, dstY := srcH - 1 - srcY, srcX;
          CopyStep(source[..], blank, TURN_90, srcW, srcH, srcY, srcX, dstX, dstY);
          rotated[Px(dstY, dstX, dstW)] := source[Px(srcY, srcX, srcW)];
        }
        CopiedRow(source[..], blank, TURN_90, srcW, srcH, srcY);
      }
      width, height, pixels := dstW, dstH, rotated;
    }

    method RotateCw270()
      requires Contents().Valid()
      modifies this`width, this`height, this`pixels
      ensures Contents() == Apply(old(Contents()), TURN_270)
      ensures pixels == old(pixels) || fresh(pixels)
    {
      if IsDegenerate() {
        return;
      }
      var srcW, srcH, source := width, height, pixels;
      var dstW, dstH := srcH, srcW;
      SameArea(TURN_270, srcW, srcH);
      var rotated := new T[dstW * dstH];
      ghost var blank := rotated[..];
      CopiedRow(source[..], blank, TURN_270, srcW, srcH, 0);
      for srcY := 0 to srcH
        invariant rotated[..] == Copied(source[..], blank, TURN_270, srcW, srcH, srcY, 0)
      {
        for srcX := 0 to srcW
          invariant rotated[..] == Copied(source[..], blank, TURN_270, srcW, srcH, srcY, srcX)
        {
          var dstX, dstY := srcY, srcW - 1 - srcX;
          CopyStep(source[..], blank, TURN_270, srcW, srcH, srcY, srcX, dstX, dstY);
          rotated[Px(dstY, dstX, dstW)] := source[Px(srcY, srcX, srcW)];
        }
        CopiedRow(source[..], blank, TURN_270, srcW, srcH, srcY);
      }
      width, height, pixels := dstW, dstH, rotated;
    }

    /** The transform codes realise the eight symmetries, the mirrored ones in two steps. */
    method ApplyOutputTransform(code: int)
      requires Contents().Valid()
      modifies this`width, this`height, this`pixels, pixels
      ensures Contents() == Apply(old(Contents()), OutputTransform(code))
      ensures pixels == old(pixels) || fresh(pixels)
    {
      ghost var before := Contents();
      if code == 1 {
        RotateCw90();
      } else if code == 2 {
        Rotate180();
      } else if code == 3 {
        RotateCw270();
      } else if code == 4 {
        FlipHorizontal();
      } else if code == 5 {
        FlipHorizontal();
        RotateCw90();
        FlipThenTurn(before, TURN_90);
      } else if code == 6 {
        FlipVertical();
      } else if code == 7 {
        FlipHorizontal();
        RotateCw270();
        FlipThenTurn(before, TURN_270);
      } else {
        ApplyNormal(before);
      }
    }

    /** An inverted capture is turned over first, once. */
    method OrientCaptureForTransform(code: int)
      requires Contents().Valid()
      modifies this, pixels
      ensures Contents() ==
              Apply(old(Contents()), Then(if old(yInvert) then FLIPPED_180 else NORMAL, OutputTransform(code)))
      ensures !yInvert
    {
      ghost var before := Contents();
      if yInvert {
        FlipVertical();
        yInvert := false;
        ApplyThen(before, FLIPPED_180, OutputTransform(code));
      }
      ApplyOutputTransform(code);
    }
  }
}
