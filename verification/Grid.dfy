/** Row-major addressing, shared by everything that works on pixel buffers. */
module Grid {
  function Px(y: int, x: int, width: int): int { y * width + x }

  lemma MulLe(a: int, b: int, c: int)
    requires a <= b && 0 <= c
    ensures a * c <= b * c
  {
  }

  lemma OneMore(a: int, n: int)
    ensures a * (n + 1) == a * n + a
  {
  }

  lemma NextMultiple(a: int, b: int, c: int)
    requires 0 <= c
    ensures a < b ==> a * c + c <= b * c
  {
    if a < b {
      MulLe(a + 1, b, c);
      assert (a + 1) * c == a * c + c;
    }
  }

  lemma QuotientIsUnique(q: int, r: int, p: int, s: int, w: int)
    requires 0 <= r < w && 0 <= s < w && q * w + r == p * w + s
    ensures q == p && r == s
  {
    NextMultiple(q, p, w);
    NextMultiple(p, q, w);
  }

  /** Distinct coordinates address distinct cells. */
  lemma PxInjective(y: int, x: int, v: int, u: int, width: int)
    requires 0 <= x < width && 0 <= u < width
    ensures Px(y, x, width) == Px(v, u, width) <==> y == v && x == u
  {
    if Px(y, x, width) == Px(v, u, width) {
      QuotientIsUnique(y, x, v, u, width);
    }
  }

  lemma PxInRange(y: int, x: int, width: int, height: int)
    requires 0 <= x < width && 0 <= y < height
    ensures 0 <= Px(y, x, width) < width * height
  {
    MulLe(0, y, width);
    NextMultiple(y, height, width);
  }

  /** Every cell has coordinates. */
  lemma PxCovers(p: int, width: int, height: int)
    requires 0 < width && 0 <= p < width * height
    ensures 0 <= p / width < height && 0 <= p % width < width
    ensures Px(p / width, p % width, width) == p
  {
    var q := p / width;
    assert p == q * width + p % width;
    NextMultiple(height - 1, q, width);
    NextMultiple(q, 0, width);
    assert (height - 1) * width == height * width - width;
  }

  lemma PxParts(y: int, x: int, width: int)
    requires 0 <= x < width
    ensures Px(y, x, width) / width == y && Px(y, x, width) % width == x
  {
    var p := Px(y, x, width);
    assert p == (p / width) * width + p % width;
    QuotientIsUnique(y, x, p / width, p % width, width);
  }
}
