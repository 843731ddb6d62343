/** src/capture/screencopy_util.cpp: turning a capture upright, in place or into a new buffer. */
module Orientation {
  import opened Wrappers
  import opened Grid

  // ---- the eight transforms ----

  /** Flip left to right first if asked, then turn clockwise by `turns` quarters. */
  datatype Transform = Transform(turns: nat, flipped: bool) {
    predicate Valid() { turns < 4 }

    function Width(w: int, h: int): int { if turns % 2 == 0 then w else h }

    function Height(w: int, h: int): int { if turns % 2 == 0 then h else w }

    /** Where in a `w` by `h` image the pixel that ends up at (x, y) comes from. */
    function PullX(x: int, y: int, w: int, h: int): int {
      var back := if turns == 0 then x else if turns == 1 then y else if turns == 2 then w - 1 - x else w - 1 - y;
      if flipped then w - 1 - back else back
    }

    function PullY(x: int, y: int, w: int, h: int): int {
      if turns == 0 then y else if turns == 1 then h - 1 - x else if turns == 2 then h - 1 - y else x
    }
  }

  const NORMAL := Transform(0, false)
  const TURN_90 := Transform(1, false)
  const TURN_180 := Transform(2, false)
  const TURN_270 := Transform(3, false)
  const FLIPPED := Transform(0, true)
  const FLIPPED_90 := Transform(1, true)
  const FLIPPED_180 := Transform(2, true)
  const FLIPPED_270 := Transform(3, true)

  /** First `s`, then `t`: a flip reverses the turns before it. */
  function Then(s: Transform, t: Transform): (r: Transform)
    requires s.Valid() && t.Valid()
    ensures r.Valid()
  {
    var turns := t.turns + (if t.flipped then 4 - s.turns else s.turns);
    Transform(if turns < 4 then turns else turns - 4, s.flipped != t.flipped)
  }

  function Inverse(t: Transform): (r: Transform)
    requires t.Valid()
    ensures r.Valid()
  {
    if t.flipped || t.turns == 0 then t else Transform(4 - t.turns, false)
  }

  lemma ThenInverse(t: Transform)
    requires t.Valid()
    ensures Then(t, Inverse(t)) == NORMAL && Then(Inverse(t), t) == NORMAL
  {
  }

  /** The transforms form a group: composition is associative, with NORMAL and inverses. */
  lemma ThenIsAssociative(r: Transform, s: Transform, t: Transform)
    requires r.Valid() && s.Valid() && t.Valid()
    ensures Then(Then(r, s), t) == Then(r, Then(s, t)) && Then(NORMAL, t) == t == Then(t, NORMAL)
  {
  }

  predicate Inside(x: int, y: int, w: int, h: int) { 0 <= x < w && 0 <= y < h }

  lemma PullInside(t: Transform, x: int, y: int, w: int, h: int)
    requires t.Valid()
    ensures Inside(x, y, t.Width(w, h), t.Height(w, h)) <==> Inside(t.PullX(x, y, w, h), t.PullY(x, y, w, h), w, h)
  {
  }

  lemma PullThen(s: Transform, t: Transform, x: int, y: int, w: int, h: int)
    requires s.Valid() && t.Valid()
    ensures var (w', h') := (s.Width(w, h), s.Height(w, h));
      var (x', y') := (t.PullX(x, y, w', h'), t.PullY(x, y, w', h'));
      && Then(s, t).Width(w, h) == t.Width(w', h') && Then(s, t).Height(w, h) == t.Height(w', h')
      && Then(s, t).PullX(x, y, w, h) == s.PullX(x', y', w, h) && Then(s, t).PullY(x, y, w, h) == s.PullY(x', y', w, h)
  {
  }

  // ---- images ----

  datatype Picture<T> = Picture(width: int, height: int, pixels: seq<T>) {
    /** What every transform silently leaves alone. */
    predicate Degenerate() { width <= 0 || height <= 0 || pixels == [] }

    predicate Valid() { !Degenerate() ==> |pixels| == width * height }
  }

  /** The index a pixel of the result is taken from. */
  function Origin(t: Transform, p: int, w: int, h: int): int
    requires 0 < w && 0 < h
  {
    var (x, y) := (p % t.Width(w, h), p / t.Width(w, h));
    Px(t.PullY(x, y, w, h), t.PullX(x, y, w, h), w)
  }

  lemma SameArea(t: Transform, w: int, h: int)
    ensures t.Width(w, h) * t.Height(w, h) == w * h
  {
  }

  lemma OriginInRange(t: Transform, p: int, w: int, h: int)
    requires t.Valid() && 0 < w && 0 < h && 0 <= p < w * h
    ensures 0 <= Origin(t, p, w, h) < w * h
  {
    SameArea(t, w, h);
    var w' := t.Width(w, h);
    PxCovers(p, w', t.Height(w, h));
    PullInside(t, p % w', p / w', w, h);
    PxInRange(t.PullY(p % w', p / w', w, h), t.PullX(p % w', p / w', w, h), w, h);
  }

  /** The transformed image. */
  function Apply<T>(image: Picture<T>, t: Transform): (r: Picture<T>)
    requires image.Valid() && t.Valid()
    ensures r.Valid() && (r.Degenerate() <==> image.Degenerate()) && |r.pixels| == |image.pixels|
  {
    if image.Degenerate() then image
    else
      SameArea(t, image.width, image.height);
      Picture(t.Width(image.width, image.height), t.Height(image.width, image.height),
              seq(|image.pixels|, p requires 0 <= p < |image.pixels| =>
                OriginInRange(t, p, image.width, image.height); image.pixels[Origin(t, p, image.width, image.height)]))
  }

  lemma OriginOf(t: Transform, x: int, y: int, w: int, h: int)
    requires t.Valid() && Inside(x, y, t.Width(w, h), t.Height(w, h))
    ensures 0 <= Px(y, x, t.Width(w, h)) < w * h
    ensures Origin(t, Px(y, x, t.Width(w, h)), w, h) == Px(t.PullY(x, y, w, h), t.PullX(x, y, w, h), w)
  {
    SameArea(t, w, h);
    PxInRange(y, x, t.Width(w, h), t.Height(w, h));
    PxParts(y, x, t.Width(w, h));
  }

  lemma OriginThen(s: Transform, t: Transform, p: int, w: int, h: int)
    requires s.Valid() && t.Valid() && 0 < w && 0 < h && 0 <= p < w * h
    ensures Origin(Then(s, t), p, w, h) == Origin(s, Origin(t, p, s.Width(w, h), s.Height(w, h)), w, h)
  {
    var w', h' := s.Width(w, h), s.Height(w, h);
    var w'', h'' := t.Width(w', h'), t.Height(w', h');
    SameArea(s, w, h);
    SameArea(t, w', h');
    PxCovers(p, w'', h'');
    var x, y := p % w'', p / w'';
    PullInside(t, x, y, w', h');
    OriginOf(s, t.PullX(x, y, w', h'), t.PullY(x, y, w', h'), w, h);
    PullThen(s, t, x, y, w, h);
  }

  /** Transforming twice is transforming once by the composition, on every image. */
  lemma ApplyThen<T>(image: Picture<T>, s: Transform, t: Transform)
    requires image.Valid() && s.Valid() && t.Valid()
    ensures Apply(Apply(image, s), t) == Apply(image, Then(s, t))
  {
    if !image.Degenerate() {
      var w, h := image.width, image.height;
      PullThen(s, t, 0, 0, w, h);
      SameArea(s, w, h);
      forall p | 0 <= p < |image.pixels|
        ensures Apply(Apply(image, s), t).pixels[p] == Apply(image, Then(s, t)).pixels[p]
      {
        OriginInRange(t, p, s.Width(w, h), s.Height(w, h));
        OriginThen(s, t, p, w, h);
      }
    }
  }

  lemma ApplyNormal<T>(image: Picture<T>)
    requires image.Valid()
    ensures Apply(image, NORMAL) == image
  {
    if !image.Degenerate() {
      forall p | 0 <= p < |image.pixels| ensures Origin(NORMAL, p, image.width, image.height) == p {
        PxCovers(p, image.width, image.height);
      }
    }
  }

  /** Every transform can be undone, by itself if it flips. */
  lemma ApplyInverse<T>(image: Picture<T>, t: Transform)
    requires image.Valid() && t.Valid()
    ensures Apply(Apply(image, t), Inverse(t)) == image && Apply(Apply(image, Inverse(t)), t) == image
    ensures t.flipped ==> Apply(Apply(image, t), t) == image
  {
    ApplyThen(image, t, Inverse(t));
    ApplyThen(image, Inverse(t), t);
    ThenInverse(t);
    ApplyNormal(image);
  }

  lemma QuarterTurns<T>(image: Picture<T>)
    requires image.Valid()
    ensures Apply(Apply(image, TURN_90), TURN_90) == Apply(image, TURN_180)
    ensures Apply(Apply(image, TURN_90), TURN_270) == image
  {
    ApplyThen(image, TURN_90, TURN_90);
    ApplyThen(image, TURN_90, TURN_270);
    ApplyNormal(image);
  }

  /** A flip and a turn make each of the mirrored transforms. */
  lemma FlipThenTurn<T>(image: Picture<T>, turn: Transform)
    requires image.Valid() && turn.Valid() && !turn.flipped
    ensures Apply(Apply(image, FLIPPED), turn) == Apply(image, Transform(turn.turns, true))
  {
    ApplyThen(image, FLIPPED, turn);
  }

  // ---- no pixel is lost or doubled ----

  ghost function Places<T(!new)>(s: seq<T>, v: T): set<int> {
    set i | 0 <= i < |s| && s[i] == v
  }

  lemma {:induction false} CountIsPlaces<T(!new)>(s: seq<T>, v: T, n: nat)
    requires n <= |s|
    ensures multiset(s[..n])[v] == |Places(s[..n], v)|
  {
    if n > 0 {
      CountIsPlaces(s, v, n - 1);
      assert s[..n] == s[..n - 1] + [s[n - 1]];
      assert Places(s[..n], v) == Places(s[..n - 1], v) + (if s[n - 1] == v then {n - 1} else {});
    }
  }

  /** An injection into a set cannot start from a larger one. */
  lemma {:induction false} InjectionFits(from: set<int>, onto: set<int>, t: Transform, w: int, h: int)
    requires t.Valid() && 0 < w && 0 < h
    requires forall p :: p in from ==> 0 <= p < w * h && Origin(t, p, w, h) in onto
    ensures |from| <= |onto|
    decreases |from|
  {
    if from != {} {
      var p := AnyOf(from);
      forall q | q in from - {p} ensures Origin(t, q, w, h) in onto - {Origin(t, p, w, h)} {
        OriginInjective(t, p, q, w, h);
      }
      InjectionFits(from - {p}, onto - {Origin(t, p, w, h)}, t, w, h);
    }
  }

  lemma OriginInjective(t: Transform, p: int, q: int, w: int, h: int)
    requires t.Valid() && 0 < w && 0 < h && 0 <= p < w * h && 0 <= q < w * h
    ensures Origin(t, p, w, h) == Origin(t, q, w, h) ==> p == q
  {
    var w', h' := t.Width(w, h), t.Height(w, h);
    SameArea(t, w, h);
    PxCovers(p, w', h');
    PxCovers(q, w', h');
    PullInside(t, p % w', p / w', w, h);
    PullInside(t, q % w', q / w', w, h);
    PxInjective(t.PullY(p % w', p / w', w, h), t.PullX(p % w', p / w', w, h),
                t.PullY(q % w', q / w', w, h), t.PullX(q % w', q / w', w, h), w);
  }

  lemma NoPixelGained<T(!new)>(image: Picture<T>, t: Transform, v: T)
    requires image.Valid() && t.Valid()
    ensures multiset(Apply(image, t).pixels)[v] <= multiset(image.pixels)[v]
  {
    if !image.Degenerate() {
      var after := Apply(image, t).pixels;
      CountIsPlaces(image.pixels, v, |image.pixels|);
      CountIsPlaces(after, v, |after|);
      assert image.pixels[..|image.pixels|] == image.pixels && after[..|after|] == after;
      forall p | p in Places(after, v) ensures Origin(t, p, image.width, image.height) in Places(image.pixels, v) {
        OriginInRange(t, p, image.width, image.height);
      }
      InjectionFits(Places(after, v), Places(image.pixels, v), t, image.width, image.height);
    }
  }

  /** The transformed image has the same pixels, each as often. */
  lemma PixelsAreConserved<T(!new)>(image: Picture<T>, t: Transform)
    requires image.Valid() && t.Valid()
    ensures multiset(Apply(image, t).pixels) == multiset(image.pixels)
  {
    ApplyInverse(image, t);
    forall v ensures multiset(Apply(image, t).pixels)[v] == multiset(image.pixels)[v] {
      NoPixelGained(image, t, v);
      NoPixelGained(Apply(image, t), Inverse(t), v);
    }
  }
}
