/** src/capture/annotation_raster.cpp: the sliding-window box blur over packed pixels. */
module BoxBlur {
  import opened Grid
  import opened Tracks

  const TWO_32: int := 0x1_0000_0000
  const TWO_64: int := 0x1_0000_0000_0000_0000
  // The widest window whose fixed-point reciprocal is exact whatever its rounding.
  const MAX_WINDOW: int := 4104
  // The widest window whose channel sums fit 32 bits.
  const MAX_SUMMED: int := 0x101_0101

  // ---- fixed-point division ----

  function AverageReciprocal(count: int): int
    requires 0 < count
  {
    0xFFFF_FFFF / count + 1
  }

  /** (uint32)((uint64)sum * reciprocal >> 32) */
  function Mean(sum: int, reciprocal: int): int {
    (sum * reciprocal) % TWO_64 / TWO_32 % TWO_32
  }

  /** By how much the reciprocal of `count`, times `count`, overshoots 2^32. */
  function Overshoot(count: int): int
    requires 0 < count
  {
    AverageReciprocal(count) * count - TWO_32
  }

  lemma OvershootIsSmall(count: int)
    requires 0 < count
    ensures 0 <= Overshoot(count) < count
  {
    var q := 0xFFFF_FFFF / count;
    assert 0xFFFF_FFFF == q * count + 0xFFFF_FFFF % count;
    assert AverageReciprocal(count) * count == q * count + count;
  }

  /** Whether the shifted product is the quotient is decided by the overshoot alone. */
  lemma MeanBetween(sum: int, count: int)
    requires 0 < count <= MAX_SUMMED && 0 <= sum <= 255 * count
    ensures var q, rem := sum / count, sum % count;
      && q * TWO_32 <= sum * AverageReciprocal(count)
      && (sum * AverageReciprocal(count) < (q + 1) * TWO_32 <==> sum * Overshoot(count) < (count - rem) * TWO_32)
  {
    var q, rem, r := sum / count, sum % count, AverageReciprocal(count);
    OvershootIsSmall(count);
    assert sum == q * count + rem;
    assert sum * r * count == sum * (TWO_32 + Overshoot(count)) by {
      assert sum * r * count == sum * (r * count);
    }
    assert sum * (TWO_32 + Overshoot(count)) == sum * TWO_32 + sum * Overshoot(count);
    MulLe(0, sum, Overshoot(count));
    ScaledCompare(q * TWO_32, sum * r, count);
    ScaledCompare((q + 1) * TWO_32, sum * r, count);
    assert q * TWO_32 * count == (q * count) * TWO_32;
    assert (q + 1) * TWO_32 * count == (q * count + count) * TWO_32;
  }

  lemma ScaledCompare(a: int, b: int, count: int)
    requires 0 < count
    ensures a <= b <==> a * count <= b * count
  {
    if a <= b {
      MulLe(a, b, count);
    } else {
      MulLe(b + 1, a, count);
    }
  }

  lemma ProductFits(sum: int, count: int)
    requires 0 < count <= MAX_SUMMED && 0 <= sum <= 255 * count
    ensures 0 <= sum * AverageReciprocal(count) < 256 * TWO_32
  {
    OvershootIsSmall(count);
    var r := AverageReciprocal(count);
    assert r > 0;
    MulLe(0, sum, r);
    MulLe(sum, 255 * count, r);
    assert 255 * count * r == 255 * (count * r);
  }

  lemma MeanIsQuotient(sum: int, count: int)
    requires 0 < count <= MAX_SUMMED && 0 <= sum <= 255 * count
    ensures Mean(sum, AverageReciprocal(count)) == sum * AverageReciprocal(count) / TWO_32
  {
    ProductFits(sum, count);
  }

  lemma QuotientIff(product: int, q: int)
    requires q * TWO_32 <= product
    ensures product / TWO_32 == q <==> product < (q + 1) * TWO_32
  {
  }

  lemma MeanIsShift(sum: int, count: int)
    requires 0 < count <= MAX_SUMMED && 0 <= sum <= 255 * count
    ensures Mean(sum, AverageReciprocal(count)) == sum / count <==>
            sum * Overshoot(count) < (count - sum % count) * TWO_32
  {
    MeanIsQuotient(sum, count);
    MeanBetween(sum, count);
    QuotientIff(sum * AverageReciprocal(count), sum / count);
  }

  /** The mean lies between any bounds of the samples, exact or not. */
  lemma MeanWithin(sum: int, count: int, lo: int, hi: int)
    requires 0 < count <= MAX_SUMMED && 0 <= lo && hi <= 255 && lo * count <= sum <= hi * count
    ensures lo <= Mean(sum, AverageReciprocal(count)) <= hi
  {
    var r := AverageReciprocal(count);
    OvershootIsSmall(count);
    MulLe(0, lo, count);
    MulLe(hi, 255, count);
    MeanIsQuotient(sum, count);
    MulLe(lo * count, sum, r);
    MulLe(sum, hi * count, r);
    assert lo * count * r == lo * (r * count) && hi * count * r == hi * (r * count);
    assert r * count == TWO_32 + Overshoot(count);
    assert lo * TWO_32 <= sum * r by { MulLe(TWO_32, r * count, lo); }
    assert hi * (TWO_32 + Overshoot(count)) == hi * TWO_32 + hi * Overshoot(count);
    MulLe(hi, 255, Overshoot(count));
    assert sum * r < (hi + 1) * TWO_32;
    QuotientBetween(sum * r, lo, hi);
  }

  lemma QuotientBetween(product: int, lo: int, hi: int)
    requires lo * TWO_32 <= product < (hi + 1) * TWO_32
    ensures lo <= product / TWO_32 <= hi
  {
  }

  /** The reciprocal divides every reachable sum exactly if and only if this product stays below 2^32. */
  lemma ReciprocalExactIff(count: int)
    requires 0 < count <= MAX_SUMMED
    ensures (forall sum :: 0 <= sum <= 255 * count ==> Mean(sum, AverageReciprocal(count)) == sum / count)
       <==> (255 * count - 1) * Overshoot(count) < TWO_32
  {
    OvershootIsSmall(count);
    var worst := 255 * count - 1;
    MeanIsShift(worst, count);
    WorstRemainder(count);
    if worst * Overshoot(count) < TWO_32 {
      forall sum | 0 <= sum <= 255 * count ensures Mean(sum, AverageReciprocal(count)) == sum / count {
        SumIsExact(sum, count);
      }
    }
  }

  lemma WorstRemainder(count: int)
    requires 0 < count
    ensures (255 * count - 1) % count == count - 1
  {
    var worst := 255 * count - 1;
    assert worst == (worst / count) * count + worst % count;
    QuotientIsUnique(254, count - 1, worst / count, worst % count, count);
  }

  lemma SumIsExact(sum: int, count: int)
    requires 0 < count <= MAX_SUMMED && 0 <= sum <= 255 * count
    requires (255 * count - 1) * Overshoot(count) < TWO_32
    ensures Mean(sum, AverageReciprocal(count)) == sum / count
  {
    OvershootIsSmall(count);
    MeanIsShift(sum, count);
    var left := count - sum % count;
    if sum < 255 * count {
      MulLe(sum, 255 * count - 1, Overshoot(count));
      MulLe(1, left, TWO_32);
    } else {
      assert sum == (sum / count) * count + sum % count;
      QuotientIsUnique(255, 0, sum / count, sum % count, count);
      assert sum * Overshoot(count) == (255 * Overshoot(count)) * count;
      MulLe(255 * Overshoot(count), TWO_32 - 1, count);
    }
  }

  /** Sums fit and the reciprocal divides them exactly. */
  predicate ExactWindow(count: int) {
    0 < count <= MAX_SUMMED && (255 * count - 1) * Overshoot(count) < TWO_32
  }

  /** Every window up to 4104 pixels wide qualifies, so the blur divides exactly. */
  lemma MeanIsExact(sum: int, count: int)
    requires 0 < count <= MAX_WINDOW && 0 <= sum <= 255 * count
    ensures ExactWindow(count) && Mean(sum, AverageReciprocal(count)) == sum / count
  {
    OvershootIsSmall(count);
    MulLe(Overshoot(count), MAX_WINDOW - 1, 255 * count - 1);
    SumIsExact(sum, count);
  }

  lemma SaturatedFits(count: int)
    requires 0 < count <= MAX_SUMMED
    ensures Mean(255 * count, AverageReciprocal(count)) == 255
  {
    OvershootIsSmall(count);
    MeanIsShift(255 * count, count);
    QuotientIsUnique(255, 0, 255 * count / count, 255 * count % count, count);
    assert 255 * count * Overshoot(count) == count * (255 * Overshoot(count));
    MulLe(255 * Overshoot(count), TWO_32 - 1, count);
  }

  lemma LostTwice(count: int, lost: int, r: int)
    requires MAX_SUMMED < count < TWO_32 && r == AverageReciprocal(count) && lost == 255 * count / TWO_32
    ensures (255 * count - lost * TWO_32) * r < 255 * TWO_32
  {
    OvershootIsSmall(count);
    assert 1 <= lost && r >= 2;
    MulLe(2, r, lost * TWO_32);
    Spread(255 * count, lost * TWO_32, r);
    assert 255 * count * r == 255 * (r * count);
  }

  lemma Spread(a: int, b: int, r: int)
    ensures (a - b) * r == a * r - b * r
  {
  }

  lemma MeanBelow(sum: int, r: int, bound: int)
    requires 0 <= sum && 0 <= r && sum * r < bound * TWO_32 && bound <= 256
    ensures Mean(sum, r) < bound
  {
    MulLe(0, sum, r);
  }

  /** Sums that have wrapped average to less. */
  lemma SaturatedWraps(count: int)
    requires MAX_SUMMED < count < TWO_32
    ensures Mean(Wrap(255 * count), AverageReciprocal(count)) < 255
  {
    var lost := 255 * count / TWO_32;
    assert Wrap(255 * count) == 255 * count - lost * TWO_32;
    LostTwice(count, lost, AverageReciprocal(count));
    MeanBelow(Wrap(255 * count), AverageReciprocal(count), 255);
  }

  lemma SaturatedMeanIff(count: int)
    requires 0 < count < TWO_32
    ensures 0 <= Mean(Wrap(255 * count), AverageReciprocal(count)) <= 255
    ensures Mean(Wrap(255 * count), AverageReciprocal(count)) == 255 <==> count <= MAX_SUMMED
  {
    if count <= MAX_SUMMED {
      SaturatedFits(count);
    } else {
      SaturatedWraps(count);
    }
  }

  // ---- packed pixels ----

  type Pixel = bv32

  /** Byte `k` of a pixel, 0 the lowest. */
  function ChannelBits(pixel: Pixel, k: nat): bv8
    requires k < 4
  {
    if k == 0 then (pixel & 0xFF) as bv8
    else if k == 1 then ((pixel >> 8) & 0xFF) as bv8
    else if k == 2 then ((pixel >> 16) & 0xFF) as bv8
    else ((pixel >> 24) & 0xFF) as bv8
  }

  function Channel(pixel: Pixel, k: nat): (value: int)
    requires k < 4
    ensures 0 <= value <= 255
  {
    ChannelBits(pixel, k) as int
  }

  function Pack(c0: bv32, c1: bv32, c2: bv32, c3: bv32): Pixel {
    (c3 << 24) | (c2 << 16) | (c1 << 8) | c0
  }

  /** Bytes do not spill into each other when packed. */
  lemma PackedBytes(c0: bv8, c1: bv8, c2: bv8, c3: bv8)
    ensures var pixel := Pack(c0 as bv32, c1 as bv32, c2 as bv32, c3 as bv32);
      && ChannelBits(pixel, 0) == c0 && ChannelBits(pixel, 1) == c1
      && ChannelBits(pixel, 2) == c2 && ChannelBits(pixel, 3) == c3
  {
  }

  lemma ByteRoundTrip(m: int)
    requires 0 <= m < 256
    ensures (m as bv8) as int == m && (m as bv8) as bv32 == m as bv32
  {
  }

  /** Two pixels with the same four channels are one pixel. */
  lemma ChannelsDetermine(a: Pixel, b: Pixel)
    requires forall k :: 0 <= k < 4 ==> ChannelBits(a, k) == ChannelBits(b, k)
    ensures a == b
  {
    var i := 0;
    while i < 4
      invariant 0 <= i <= 4
      invariant forall k :: 0 <= k < i ==> ChannelBits(a, k) == ChannelBits(b, k)
    {
      assert ChannelBits(a, i) == ChannelBits(b, i);
      i := i + 1;
    }
    assert ChannelBits(a, 0) == ChannelBits(b, 0) && ChannelBits(a, 1) == ChannelBits(b, 1);
    assert ChannelBits(a, 2) == ChannelBits(b, 2) && ChannelBits(a, 3) == ChannelBits(b, 3);
  }

  // ---- running sums ----

  /** std::array<std::uint32_t, 4>, one running sum per channel. */
  datatype Sums = Sums(s0: int, s1: int, s2: int, s3: int) {
    function Get(k: nat): int
      requires k < 4
    {
      if k == 0 then s0 else if k == 1 then s1 else if k == 2 then s2 else s3
    }
  }

  function Wrap(x: int): int { x % TWO_32 }

  /** The channels of a pixel. */
  function Levels(pixel: Pixel): Sums {
    Sums(Channel(pixel, 0), Channel(pixel, 1), Channel(pixel, 2), Channel(pixel, 3))
  }

  function AddLevels(levels: Sums, sums: Sums): Sums {
    Sums(Wrap(sums.s0 + levels.s0), Wrap(sums.s1 + levels.s1), Wrap(sums.s2 + levels.s2), Wrap(sums.s3 + levels.s3))
  }

  function SubtractLevels(levels: Sums, sums: Sums): Sums {
    Sums(Wrap(sums.s0 - levels.s0), Wrap(sums.s1 - levels.s1), Wrap(sums.s2 - levels.s2), Wrap(sums.s3 - levels.s3))
  }

  function AddPixel(pixel: Pixel, sums: Sums): Sums { AddLevels(Levels(pixel), sums) }

  function SubtractPixel(pixel: Pixel, sums: Sums): Sums { SubtractLevels(Levels(pixel), sums) }

  function MeanBits(sum: int, reciprocal: int): bv32 { Mean(sum, reciprocal) as bv32 }

  function AveragePixel(sums: Sums, reciprocal: int): Pixel {
    Pack(MeanBits(sums.s0, reciprocal), MeanBits(sums.s1, reciprocal),
         MeanBits(sums.s2, reciprocal), MeanBits(sums.s3, reciprocal))
  }

  function ByteBits(q: int): bv32
    requires 0 <= q <= 255
  {
    (q as bv8) as bv32
  }

  lemma MeanIsByte(sum: int, count: int)
    requires 0 < count <= MAX_SUMMED && 0 <= sum <= 255 * count
    ensures 0 <= Mean(sum, AverageReciprocal(count)) <= 255
    ensures MeanBits(sum, AverageReciprocal(count)) == ByteBits(Mean(sum, AverageReciprocal(count)))
  {
    MeanWithin(sum, count, 0, 255);
    ByteRoundTrip(Mean(sum, AverageReciprocal(count)));
  }

  lemma ByteValue(pixel: Pixel, k: nat, q: int)
    requires k < 4 && 0 <= q <= 255 && ChannelBits(pixel, k) == q as bv8
    ensures Channel(pixel, k) == q
  {
    ByteRoundTrip(q);
  }

  lemma PackedMeans(q0: int, q1: int, q2: int, q3: int)
    requires 0 <= q0 <= 255 && 0 <= q1 <= 255 && 0 <= q2 <= 255 && 0 <= q3 <= 255
    ensures var pixel := Pack(ByteBits(q0), ByteBits(q1), ByteBits(q2), ByteBits(q3));
      Channel(pixel, 0) == q0 && Channel(pixel, 1) == q1 && Channel(pixel, 2) == q2 && Channel(pixel, 3) == q3
  {
    var pixel := Pack(ByteBits(q0), ByteBits(q1), ByteBits(q2), ByteBits(q3));
    PackedBytes(q0 as bv8, q1 as bv8, q2 as bv8, q3 as bv8);
    ByteValue(pixel, 0, q0);
    ByteValue(pixel, 1, q1);
    ByteValue(pixel, 2, q2);
    ByteValue(pixel, 3, q3);
  }

  predicate SumsWithin(sums: Sums, most: int) {
    0 <= sums.s0 <= most && 0 <= sums.s1 <= most && 0 <= sums.s2 <= most && 0 <= sums.s3 <= most
  }

  function MeanOf(sums: Sums, count: int, k: nat): int
    requires 0 < count && k < 4
  {
    Mean(sums.Get(k), AverageReciprocal(count))
  }

  lemma AverageBits(sums: Sums, count: int)
    requires 0 < count <= MAX_SUMMED && SumsWithin(sums, 255 * count)
    ensures forall k :: 0 <= k < 4 ==> 0 <= MeanOf(sums, count, k) <= 255
    ensures AveragePixel(sums, AverageReciprocal(count)) ==
            Pack(ByteBits(MeanOf(sums, count, 0)), ByteBits(MeanOf(sums, count, 1)), ByteBits(MeanOf(sums, count, 2)),
                 ByteBits(MeanOf(sums, count, 3)))
  {
    MeanIsByte(sums.s0, count);
    MeanIsByte(sums.s1, count);
    MeanIsByte(sums.s2, count);
    MeanIsByte(sums.s3, count);
  }

  /** The channels of an averaged pixel are the means of the sums, as long as these fit. */
  lemma AverageChannel(sums: Sums, count: int, k: nat)
    requires 0 < count <= MAX_SUMMED && SumsWithin(sums, 255 * count) && k < 4
    ensures Channel(AveragePixel(sums, AverageReciprocal(count)), k) == MeanOf(sums, count, k)
  {
    AverageBits(sums, count);
    PackedMeans(MeanOf(sums, count, 0), MeanOf(sums, count, 1), MeanOf(sums, count, 2), MeanOf(sums, count, 3));
  }

  // ---- the window over one line ----

  /** One channel of every pixel of a line. */
  function Channels(line: seq<Pixel>, k: nat): (values: seq<int>)
    requires k < 4
    ensures |values| == |line|
  {
    seq(|line|, i requires 0 <= i < |line| => Channel(line[i], k))
  }

  predicate Within(values: seq<int>, lo: int, hi: int) {
    forall i :: 0 <= i < |values| ==> lo <= values[i] <= hi
  }

  lemma ChannelsAreBytes(line: seq<Pixel>, k: nat)
    requires k < 4
    ensures Within(Channels(line, k), 0, 255)
  {
  }

  function Clamp(i: int, n: nat): (at: nat)
    requires 0 < n
    ensures at < n
  {
    if i < 0 then 0 else if i >= n then n - 1 else i
  }

  /** The sum of samples lo..hi-1 of a line whose ends extend forever. */
  function WindowSum(values: seq<int>, lo: int, hi: int): int
    requires values != [] && lo <= hi
    decreases hi - lo
  {
    if lo == hi then 0 else WindowSum(values, lo, hi - 1) + values[Clamp(hi - 1, |values|)]
  }

  lemma {:induction false} SumWithin(values: seq<int>, lo: int, hi: int, first: int, end: int)
    requires values != [] && first <= end && Within(values, lo, hi)
    ensures lo * (end - first) <= WindowSum(values, first, end) <= hi * (end - first)
    decreases end - first
  {
    if first < end {
      SumWithin(values, lo, hi, first, end - 1);
      OneMore(lo, end - 1 - first);
      OneMore(hi, end - 1 - first);
    }
  }

  lemma {:induction false} FirstOut(values: seq<int>, lo: int, hi: int)
    requires values != [] && lo < hi
    ensures WindowSum(values, lo, hi) == values[Clamp(lo, |values|)] + WindowSum(values, lo + 1, hi)
    decreases hi - lo
  {
    if lo + 1 < hi {
      FirstOut(values, lo, hi - 1);
    }
  }

  lemma WrapTwice(a: int, b: int)
    ensures Wrap(Wrap(a) + b) == Wrap(a + b) && Wrap(Wrap(a) - b) == Wrap(a - b)
  {
    var q := a / TWO_32;
    assert a == q * TWO_32 + Wrap(a);
    WrapSkips(Wrap(a) + b, q);
    WrapSkips(Wrap(a) - b, q);
  }

  lemma WrapSkips(x: int, q: int)
    ensures Wrap(x + q * TWO_32) == Wrap(x)
  {
    var y := x + q * TWO_32;
    assert x == (x / TWO_32) * TWO_32 + Wrap(x) && y == (y / TWO_32) * TWO_32 + Wrap(y);
    QuotientIsUnique(x / TWO_32 + q, Wrap(x), y / TWO_32, Wrap(y), TWO_32);
  }

  lemma SumGrows(values: seq<int>, lo: int, hi: int)
    requires values != [] && lo <= hi
    ensures Wrap(Wrap(WindowSum(values, lo, hi)) + values[Clamp(hi, |values|)]) == Wrap(WindowSum(values, lo, hi + 1))
  {
    WrapTwice(WindowSum(values, lo, hi), values[Clamp(hi, |values|)]);
  }

  /** Taking out the sample that leaves the window never underflows. */
  lemma NoUnderflow(values: seq<int>, lo: int, hi: int)
    requires values != [] && lo < hi && Within(values, 0, 255)
    ensures values[Clamp(lo, |values|)] <= WindowSum(values, lo, hi)
  {
    FirstOut(values, lo, hi);
    SumWithin(values, 0, 255, lo + 1, hi);
  }

  lemma SumShrinks(values: seq<int>, lo: int, hi: int)
    requires values != [] && lo < hi
    ensures Wrap(Wrap(WindowSum(values, lo, hi)) - values[Clamp(lo, |values|)]) == Wrap(WindowSum(values, lo + 1, hi))
  {
    FirstOut(values, lo, hi);
    WrapTwice(WindowSum(values, lo, hi), values[Clamp(lo, |values|)]);
  }

  /** The four channels of a line side by side. */
  datatype Planes = Planes(v0: seq<int>, v1: seq<int>, v2: seq<int>, v3: seq<int>) {
    ghost predicate Valid() {
      && v0 != [] && |v0| == |v1| == |v2| == |v3|
      && Within(v0, 0, 255) && Within(v1, 0, 255) && Within(v2, 0, 255) && Within(v3, 0, 255)
    }

    ghost function At(i: int): Sums
      requires Valid()
    {
      Sums(v0[Clamp(i, |v0|)], v1[Clamp(i, |v1|)], v2[Clamp(i, |v2|)], v3[Clamp(i, |v3|)])
    }

    ghost function SumsOver(lo: int, hi: int): Sums
      requires Valid() && lo <= hi
    {
      Sums(Wrap(WindowSum(v0, lo, hi)), Wrap(WindowSum(v1, lo, hi)), Wrap(WindowSum(v2, lo, hi)),
           Wrap(WindowSum(v3, lo, hi)))
    }
  }

  /** The running sums are those of the window, modulo 2^32, however wide it is. */
  lemma LevelsGrow(planes: Planes, lo: int, hi: int)
    requires planes.Valid() && lo <= hi
    ensures AddLevels(planes.At(hi), planes.SumsOver(lo, hi)) == planes.SumsOver(lo, hi + 1)
  {
    SumGrows(planes.v0, lo, hi);
    SumGrows(planes.v1, lo, hi);
    SumGrows(planes.v2, lo, hi);
    SumGrows(planes.v3, lo, hi);
  }

  lemma LevelsShrink(planes: Planes, lo: int, hi: int)
    requires planes.Valid() && lo < hi
    ensures SubtractLevels(planes.At(lo), planes.SumsOver(lo, hi)) == planes.SumsOver(lo + 1, hi)
  {
    SumShrinks(planes.v0, lo, hi);
    SumShrinks(planes.v1, lo, hi);
    SumShrinks(planes.v2, lo, hi);
    SumShrinks(planes.v3, lo, hi);
  }

  ghost function PlanesOf(line: seq<Pixel>): Planes {
    Planes(Channels(line, 0), Channels(line, 1), Channels(line, 2), Channels(line, 3))
  }

  lemma PlanesAt(line: seq<Pixel>, i: int)
    requires line != []
    ensures PlanesOf(line).Valid() && PlanesOf(line).At(i) == Levels(line[Clamp(i, |line|)])
  {
  }

  ghost function WindowSums(line: seq<Pixel>, lo: int, hi: int): Sums
    requires line != [] && lo <= hi
  {
    PlanesAt(line, 0);
    PlanesOf(line).SumsOver(lo, hi)
  }

  lemma SumsGrow(line: seq<Pixel>, lo: int, hi: int)
    requires line != [] && lo <= hi
    ensures AddPixel(line[Clamp(hi, |line|)], WindowSums(line, lo, hi)) == WindowSums(line, lo, hi + 1)
  {
    PlanesAt(line, hi);
    LevelsGrow(PlanesOf(line), lo, hi);
  }

  lemma SumsShrink(line: seq<Pixel>, lo: int, hi: int)
    requires line != [] && lo < hi
    ensures SubtractPixel(line[Clamp(lo, |line|)], WindowSums(line, lo, hi)) == WindowSums(line, lo + 1, hi)
  {
    PlanesAt(line, lo);
    LevelsShrink(PlanesOf(line), lo, hi);
  }

  /** What the passes write for sample `x` of a line. */
  ghost function BlurPixel(line: seq<Pixel>, x: int, radius: int): Pixel
    requires line != [] && 0 <= radius
  {
    AveragePixel(WindowSums(line, x - radius, x + radius + 1), AverageReciprocal(2 * radius + 1))
  }

  lemma AllSumsFit(line: seq<Pixel>, lo: int, hi: int)
    requires line != [] && lo <= hi && hi - lo <= MAX_SUMMED
    ensures SumsWithin(WindowSums(line, lo, hi), 255 * (hi - lo))
  {
    SumFits(line, 0, lo, hi);
    SumFits(line, 1, lo, hi);
    SumFits(line, 2, lo, hi);
    SumFits(line, 3, lo, hi);
  }

  /** In every channel it is the mean over the window whose ends repeat the edge pixels. */
  lemma BlurPixelIsMean(line: seq<Pixel>, x: int, radius: int, k: nat)
    requires line != [] && 0 <= radius && 2 * radius + 1 <= MAX_SUMMED && k < 4
    ensures Channel(BlurPixel(line, x, radius), k) ==
            Mean(WindowSum(Channels(line, k), x - radius, x + radius + 1), AverageReciprocal(2 * radius + 1))
  {
    AllSumsFit(line, x - radius, x + radius + 1);
    AverageChannel(WindowSums(line, x - radius, x + radius + 1), 2 * radius + 1, k);
    SumFits(line, k, x - radius, x + radius + 1);
  }

  /** For exactly divided windows that is the floor of the quotient. */
  lemma BlurPixelIsFloor(line: seq<Pixel>, x: int, radius: int, k: nat)
    requires line != [] && 0 <= radius && ExactWindow(2 * radius + 1) && k < 4
    ensures Channel(BlurPixel(line, x, radius), k) ==
            WindowSum(Channels(line, k), x - radius, x + radius + 1) / (2 * radius + 1)
  {
    BlurPixelIsMean(line, x, radius, k);
    SumIsByteMultiple(line, k, x - radius, x + radius + 1);
    SumIsExact(WindowSum(Channels(line, k), x - radius, x + radius + 1), 2 * radius + 1);
  }

  /** It stays between the least and the greatest value of the line. */
  lemma BlurPixelWithin(line: seq<Pixel>, x: int, radius: int, k: nat, lo: int, hi: int)
    requires line != [] && 0 <= radius && 2 * radius + 1 <= MAX_SUMMED && k < 4 && Within(Channels(line, k), lo, hi)
    ensures lo <= Channel(BlurPixel(line, x, radius), k) <= hi
  {
    var low, high := if lo < 0 then 0 else lo, if hi > 255 then 255 else hi;
    ChannelsAreBytes(line, k);
    BlurPixelIsMean(line, x, radius, k);
    SumWithin(Channels(line, k), low, high, x - radius, x + radius + 1);
    MeanWithin(WindowSum(Channels(line, k), x - radius, x + radius + 1), 2 * radius + 1, low, high);
  }

  /** 32-bit arithmetic does not wrap on a window that fits. */
  lemma SumFits(line: seq<Pixel>, k: nat, lo: int, hi: int)
    requires line != [] && lo <= hi && hi - lo <= MAX_SUMMED && k < 4
    ensures WindowSums(line, lo, hi).Get(k) == WindowSum(Channels(line, k), lo, hi)
    ensures 0 <= WindowSum(Channels(line, k), lo, hi) <= 255 * (hi - lo)
  {
    SumIsByteMultiple(line, k, lo, hi);
    var sum := WindowSum(Channels(line, k), lo, hi);
    assert Wrap(sum) == sum;
  }

  const WHITE: Pixel := 0xFFFF_FFFF

  lemma WhiteSum(line: seq<Pixel>, k: nat, lo: int, hi: int)
    requires line != [] && lo <= hi && k < 4 && forall i :: 0 <= i < |line| ==> line[i] == WHITE
    ensures WindowSums(line, lo, hi).Get(k) == Wrap(255 * (hi - lo))
  {
    forall i | 0 <= i < |line| ensures Channels(line, k)[i] == 255 {
      WhiteChannel(line[i], k);
    }
    SumWithin(Channels(line, k), 255, 255, lo, hi);
  }

  lemma WhiteChannel(pixel: Pixel, k: nat)
    requires pixel == WHITE && k < 4
    ensures Channel(pixel, k) == 255
  {
    assert ChannelBits(WHITE, k) == 0xFF;
    ByteRoundTrip(255);
  }

  lemma WhiteSums(line: seq<Pixel>, lo: int, hi: int)
    requires line != [] && lo <= hi && forall i :: 0 <= i < |line| ==> line[i] == WHITE
    ensures var sum := Wrap(255 * (hi - lo)); WindowSums(line, lo, hi) == Sums(sum, sum, sum, sum)
  {
    WhiteSum(line, 0, lo, hi);
    WhiteSum(line, 1, lo, hi);
    WhiteSum(line, 2, lo, hi);
    WhiteSum(line, 3, lo, hi);
  }

  lemma LevelBits(sum: int, r: int, level: int)
    requires 0 <= level <= 255 && level == Mean(sum, r)
    ensures MeanBits(sum, r) == ByteBits(level)
  {
    ByteRoundTrip(level);
  }

  lemma WhiteBits(line: seq<Pixel>, x: int, radius: int, level: int)
    requires line != [] && forall i :: 0 <= i < |line| ==> line[i] == WHITE
    requires 0 <= radius && 0 <= level <= 255
    requires level == Mean(Wrap(255 * (2 * radius + 1)), AverageReciprocal(2 * radius + 1))
    ensures BlurPixel(line, x, radius) == Pack(ByteBits(level), ByteBits(level), ByteBits(level), ByteBits(level))
  {
    WhiteSums(line, x - radius, x + radius + 1);
    LevelBits(Wrap(255 * (2 * radius + 1)), AverageReciprocal(2 * radius + 1), level);
  }

  /** A white image stays white exactly if the channel sums of the window fit 32 bits. */
  lemma WhiteStaysIff(line: seq<Pixel>, x: int, radius: int)
    requires line != [] && forall i :: 0 <= i < |line| ==> line[i] == WHITE
    requires 0 <= radius && 2 * radius + 1 < TWO_32
    ensures BlurPixel(line, x, radius) == WHITE <==> 2 * radius + 1 <= MAX_SUMMED
  {
    var level := Mean(Wrap(255 * (2 * radius + 1)), AverageReciprocal(2 * radius + 1));
    SaturatedMeanIff(2 * radius + 1);
    WhiteBits(line, x, radius, level);
    PackedMeans(level, level, level, level);
    WhiteChannel(WHITE, 0);
    if level == 255 {
      assert ByteBits(255) == 0xFF;
    }
  }

  lemma SumIsByteMultiple(line: seq<Pixel>, k: nat, lo: int, hi: int)
    requires line != [] && k < 4 && lo <= hi
    ensures 0 <= WindowSum(Channels(line, k), lo, hi) <= 255 * (hi - lo)
  {
    ChannelsAreBytes(line, k);
    SumWithin(Channels(line, k), 0, 255, lo, hi);
  }

  // ---- the passes ----

  /** A line once the pass has run over it. */
  ghost function BlurPixels(line: seq<Pixel>, radius: int): (out: seq<Pixel>)
    requires line != [] && 0 <= radius
    ensures |out| == |line|
  {
    seq(|line|, x requires 0 <= x < |line| => BlurPixel(line, x, radius))
  }

  ghost function Windows(line: seq<Pixel>, radius: int): (windows: seq<Sums>)
    requires line != [] && 0 <= radius
    ensures |windows| == |line|
  {
    seq(|line|, x requires 0 <= x < |line| => WindowSums(line, x - radius, x + radius + 1))
  }

  /** Names a sample, so that the facts about it are used only where it is named. */
  predicate Sample(x: int) { true }

  /** The sums a pass sees, and the pixels it writes, along a line. */
  ghost predicate LineRun(line: seq<Pixel>, radius: int, windows: seq<Sums>, out: seq<Pixel>)
    requires 0 <= radius
  {
    && |line| == |windows| == |out|
    && forall x {:trigger Sample(x)} :: Sample(x) && 0 <= x < |line| ==>
         && windows[x] == WindowSums(line, x - radius, x + 1 + radius)
         && out[x] == BlurPixel(line, x, radius)
  }

  lemma LineRunAt(line: seq<Pixel>, radius: int, windows: seq<Sums>, out: seq<Pixel>, x: nat)
    requires 0 <= radius && LineRun(line, radius, windows, out) && x < |line|
    ensures windows[x] == WindowSums(line, x - radius, x + 1 + radius) && out[x] == BlurPixel(line, x, radius)
  {
    assert Sample(x);
  }

  lemma LineRuns(line: seq<Pixel>, radius: int)
    requires line != [] && 0 <= radius
    ensures LineRun(line, radius, Windows(line, radius), BlurPixels(line, radius))
  {
  }

  method FirstWindow(src: array<Pixel>, track: Track, n: nat, radius: int, ghost line: seq<Pixel>) returns (sums: Sums)
    requires 0 < n && Addresses(track, n, src.Length) && 0 <= radius && line == Line(src[..], track, n)
    ensures sums == WindowSums(line, -radius, radius + 1)
  {
    sums := Sums(0, 0, 0, 0);
    for x := -radius to radius + 1
      invariant sums == WindowSums(line, -radius, x)
    {
      SumsGrow(line, -radius, x);
      sums := AddPixel(src[Cell(track, Clamp(x, n))], sums);
    }
  }

  lemma SampleIs(src: seq<Pixel>, track: Track, n: nat, i: nat)
    requires Addresses(track, n, |src|) && i < n
    ensures 0 <= Cell(track, i) < |src| && Line(src, track, n)[i] == src[Cell(track, i)]
  {
  }

  /** The window moves one sample on. */
  method Slide(src: array<Pixel>, track: Track, n: nat, radius: int, x: int, sums: Sums, ghost line: seq<Pixel>)
    returns (next: Sums)
    requires 0 < n && Addresses(track, n, src.Length) && 0 <= radius
    requires line == Line(src[..], track, n)
    requires sums == WindowSums(line, x - radius, x + 1 + radius)
    ensures next == WindowSums(line, x + 1 - radius, x + 2 + radius)
  {
    var leaving, entering := Clamp(x - radius, n), Clamp(x + radius + 1, n);
    SampleIs(src[..], track, n, leaving);
    SampleIs(src[..], track, n, entering);
    SumsShrink(line, x - radius, x + radius + 1);
    next := SubtractPixel(src[Cell(track, leaving)], sums);
    SumsGrow(line, x - radius + 1, x + radius + 1);
    next := AddPixel(src[Cell(track, entering)], next);
  }

  /** Writes the average of the window around sample `x`. */
  method WriteSample(dst: array<Pixel>, track: Track, n: nat, radius: int, x: nat, sums: Sums, reciprocal: int,
                     ghost line: seq<Pixel>, ghost windows: seq<Sums>, ghost out: seq<Pixel>)
    requires x < n && Addresses(track, n, dst.Length) && 0 <= radius && reciprocal == AverageReciprocal(2 * radius + 1)
    requires |line| == n && LineRun(line, radius, windows, out) && sums == windows[x]
    modifies dst
    ensures dst[..] == old(dst[..])[Cell(track, x) := out[x]]
  {
    LineRunAt(line, radius, windows, out, x);
    dst[Cell(track, x)] := AveragePixel(sums, reciprocal);
  }

  /** Moves the window on, unless the line ends. */
  method Advance(src: array<Pixel>, track: Track, n: nat, radius: int, x: nat, sums: Sums, ghost line: seq<Pixel>,
                 ghost windows: seq<Sums>, ghost out: seq<Pixel>)
    returns (next: Sums)
    requires x < n && Addresses(track, n, src.Length) && 0 <= radius
    requires line == Line(src[..], track, n) && LineRun(line, radius, windows, out) && sums == windows[x]
    ensures x + 1 < n ==> next == windows[x + 1]
  {
    next := sums;
    if x + 1 < n {
      LineRunAt(line, radius, windows, out, x);
      LineRunAt(line, radius, windows, out, x + 1);
      next := Slide(src, track, n, radius, x, sums, line);
    }
  }

  /** One row of boxBlurHorizontal, or one column of boxBlurVertical. */
  method BlurLine(src: array<Pixel>, dst: array<Pixel>, track: Track, n: nat, radius: int,
                  ghost line: seq<Pixel>, ghost windows: seq<Sums>, ghost out: seq<Pixel>)
    requires src != dst && src.Length == dst.Length && 0 < n
    requires Addresses(track, n, src.Length) && 0 <= radius
    requires line == Line(src[..], track, n) && LineRun(line, radius, windows, out)
    modifies dst
    ensures dst[..] == Stored(old(dst[..]), out, track, n)
  {
    var reciprocal := AverageReciprocal(2 * radius + 1);
    var sums := FirstWindow(src, track, n, radius, line);
    LineRunAt(line, radius, windows, out, 0);
    for x := 0 to n
      invariant x < n ==> sums == windows[x]
      invariant dst[..] == Stored(old(dst[..]), out, track, x)
    {
      WriteSample(dst, track, n, radius, x, sums, reciprocal, line, windows, out);
      sums := Advance(src, track, n, radius, x, sums, line, windows, out);
    }
  }

  /** Every line of a buffer once a pass has run over it. */
  ghost function LineBlurs(src: seq<Pixel>, sweep: Sweep, radius: int): (outs: seq<seq<Pixel>>)
    requires sweep.Valid() && |src| == sweep.width * sweep.height && 0 <= radius
    ensures FitLines(outs, sweep)
  {
    seq(sweep.Lines(), t requires 0 <= t < sweep.Lines() =>
      TrackAddresses(sweep, t); BlurPixels(Line(src, sweep.TrackOf(t), sweep.Samples()), radius))
  }

  method RunPass(src: array<Pixel>, dst: array<Pixel>, sweep: Sweep, radius: int)
    requires sweep.Valid() && 0 <= radius
    requires src != dst && src.Length == dst.Length == sweep.width * sweep.height
    modifies dst
    ensures dst[..] == Filled(old(dst[..]), LineBlurs(src[..], sweep, radius), sweep, sweep.Lines())
  {
    ghost var outs := LineBlurs(src[..], sweep, radius);
    for t := 0 to sweep.Lines()
      invariant LineBlurs(src[..], sweep, radius) == outs
      invariant dst[..] == Filled(old(dst[..]), outs, sweep, t)
    {
      TrackAddresses(sweep, t);
      ghost var line := Line(src[..], sweep.TrackOf(t), sweep.Samples());
      LineRuns(line, radius);
      BlurLine(src, dst, sweep.TrackOf(t), sweep.Samples(), radius, line, Windows(line, radius), outs[t]);
    }
  }

  /** What a pass writes for sample `i` of line `t`. */
  ghost function LinePixel(src: seq<Pixel>, sweep: Sweep, radius: int, t: nat, i: nat): Pixel
    requires sweep.Valid() && t < sweep.Lines() && i < sweep.Samples() && 0 <= radius
    requires |src| == sweep.width * sweep.height
  {
    TrackAddresses(sweep, t);
    BlurPixel(Line(src, sweep.TrackOf(t), sweep.Samples()), i, radius)
  }

  ghost predicate PixelAt(src: seq<Pixel>, blurred: seq<Pixel>, sweep: Sweep, radius: int, t: nat, i: nat)
    requires sweep.Valid() && t < sweep.Lines() && i < sweep.Samples() && 0 <= radius
    requires |src| == |blurred| == sweep.width * sweep.height
  {
    && 0 <= Cell(sweep.TrackOf(t), i) < |blurred|
    && blurred[Cell(sweep.TrackOf(t), i)] == LinePixel(src, sweep, radius, t, i)
  }

  /** `blurred` is `src` averaged along the lines of a sweep: every pixel is the average of the 2r+1 pixels
      around it, the edge pixels repeating outwards. */
  ghost predicate AveragedAlong(src: seq<Pixel>, blurred: seq<Pixel>, sweep: Sweep, radius: int)
    requires sweep.Valid() && |src| == sweep.width * sweep.height && 0 <= radius
  {
    |blurred| == |src|
    && forall t, i :: 0 <= t < sweep.Lines() && 0 <= i < sweep.Samples() ==>
         PixelAt(src, blurred, sweep, radius, t, i)
  }

  ghost function LineMean(src: seq<Pixel>, sweep: Sweep, radius: int, t: nat, i: nat, k: nat): int
    requires sweep.Valid() && t < sweep.Lines() && i < sweep.Samples() && k < 4 && 0 <= radius
    requires |src| == sweep.width * sweep.height
  {
    TrackAddresses(sweep, t);
    WindowSum(Channels(Line(src, sweep.TrackOf(t), sweep.Samples()), k), i - radius, i + radius + 1) / (2 * radius + 1)
  }

  ghost predicate MeanAt(src: seq<Pixel>, blurred: seq<Pixel>, sweep: Sweep, radius: int, t: nat, i: nat, k: nat)
    requires sweep.Valid() && t < sweep.Lines() && i < sweep.Samples() && k < 4 && 0 <= radius
    requires |src| == |blurred| == sweep.width * sweep.height
  {
    && 0 <= Cell(sweep.TrackOf(t), i) < |blurred|
    && Channel(blurred[Cell(sweep.TrackOf(t), i)], k) == LineMean(src, sweep, radius, t, i, k)
  }

  /** `blurred` is `src` blurred along the lines of a sweep: in every channel of every pixel the floor
      of the mean of the 2r+1 samples around it, the edge pixels repeating outwards. */
  ghost predicate BlurredAlong(src: seq<Pixel>, blurred: seq<Pixel>, sweep: Sweep, radius: int)
    requires sweep.Valid() && |src| == sweep.width * sweep.height && 0 <= radius
  {
    |blurred| == |src|
    && forall t, i, k :: 0 <= t < sweep.Lines() && 0 <= i < sweep.Samples() && 0 <= k < 4 ==>
         MeanAt(src, blurred, sweep, radius, t, i, k)
  }

  lemma PassAverages(dst: seq<Pixel>, src: seq<Pixel>, sweep: Sweep, radius: int)
    requires sweep.Valid() && |src| == |dst| == sweep.width * sweep.height && 0 <= radius
    ensures AveragedAlong(src, Filled(dst, LineBlurs(src, sweep, radius), sweep, sweep.Lines()), sweep, radius)
  {
    var outs := LineBlurs(src, sweep, radius);
    forall t, i | 0 <= t < sweep.Lines() && 0 <= i < sweep.Samples()
      ensures PixelAt(src, Filled(dst, outs, sweep, sweep.Lines()), sweep, radius, t, i)
    {
      TrackAddresses(sweep, t);
      FilledAt(dst, outs, sweep, sweep.Lines(), t, i);
    }
  }

  lemma AverageIsMeanAt(src: seq<Pixel>, blurred: seq<Pixel>, sweep: Sweep, radius: int, t: nat, i: nat, k: nat)
    requires sweep.Valid() && |src| == |blurred| == sweep.width * sweep.height && 0 <= radius
    requires ExactWindow(2 * radius + 1) && t < sweep.Lines() && i < sweep.Samples() && k < 4
    requires PixelAt(src, blurred, sweep, radius, t, i)
    ensures MeanAt(src, blurred, sweep, radius, t, i, k)
  {
    TrackAddresses(sweep, t);
    BlurPixelIsFloor(Line(src, sweep.TrackOf(t), sweep.Samples()), i, radius, k);
  }

  /** For exactly divided windows the averages are the floors of the means. */
  lemma AveragesAreMeans(src: seq<Pixel>, blurred: seq<Pixel>, sweep: Sweep, radius: int)
    requires sweep.Valid() && |src| == sweep.width * sweep.height && 0 <= radius && ExactWindow(2 * radius + 1)
    requires AveragedAlong(src, blurred, sweep, radius)
    ensures BlurredAlong(src, blurred, sweep, radius)
  {
    forall t, i, k | 0 <= t < sweep.Lines() && 0 <= i < sweep.Samples() && 0 <= k < 4
      ensures MeanAt(src, blurred, sweep, radius, t, i, k)
    {
      assert PixelAt(src, blurred, sweep, radius, t, i);
      AverageIsMeanAt(src, blurred, sweep, radius, t, i, k);
    }
  }

  method BlurAlong(src: array<Pixel>, dst: array<Pixel>, sweep: Sweep, radius: int)
    requires sweep.Valid() && src != dst && src.Length == dst.Length == sweep.width * sweep.height && 0 <= radius
    modifies dst
    ensures AveragedAlong(src[..], dst[..], sweep, radius)
    ensures ExactWindow(2 * radius + 1) ==> BlurredAlong(src[..], dst[..], sweep, radius)
  {
    RunPass(src, dst, sweep, radius);
    PassAverages(old(dst[..]), src[..], sweep, radius);
    if ExactWindow(2 * radius + 1) {
      AveragesAreMeans(src[..], dst[..], sweep, radius);
    }
  }

  method BoxBlurHorizontal(src: array<Pixel>, dst: array<Pixel>, width: nat, height: nat, radius: int)
    requires 0 < width && 0 < height && src != dst && src.Length == dst.Length == width * height && 0 <= radius
    modifies dst
    ensures AveragedAlong(src[..], dst[..], Sweep(false, width, height), radius)
    ensures ExactWindow(2 * radius + 1) ==> BlurredAlong(src[..], dst[..], Sweep(false, width, height), radius)
  {
    BlurAlong(src, dst, Sweep(false, width, height), radius);
  }

  method BoxBlurVertical(src: array<Pixel>, dst: array<Pixel>, width: nat, height: nat, radius: int)
    requires 0 < width && 0 < height && src != dst && src.Length == dst.Length == width * height && 0 <= radius
    modifies dst
    ensures AveragedAlong(src[..], dst[..], Sweep(true, width, height), radius)
    ensures ExactWindow(2 * radius + 1) ==> BlurredAlong(src[..], dst[..], Sweep(true, width, height), radius)
  {
    BlurAlong(src, dst, Sweep(true, width, height), radius);
  }

  // ---- the passes, written out ----

  function NearestIndex(j: int, n: nat): (at: nat)
    requires 0 < n
    ensures at < n && (0 <= j < n ==> at == j) && (j < 0 ==> at == 0) && (n <= j ==> at == n - 1)
  {
    if j < 0 then 0 else if j < n then j else n - 1
  }

  /** One channel summed over columns lo to hi - 1 of row `y`, the first and last column repeating outwards. */
  function RowSum(src: seq<Pixel>, width: nat, height: nat, y: nat, k: nat, lo: int, hi: int): int
    requires |src| == width * height && 0 < width && y < height && k < 4
    decreases hi - lo
  {
    if hi <= lo then 0
    else
      PxInRange(y, NearestIndex(hi - 1, width), width, height);
      RowSum(src, width, height, y, k, lo, hi - 1) + Channel(src[y * width + NearestIndex(hi - 1, width)], k)
  }

  function ColumnSum(src: seq<Pixel>, width: nat, height: nat, x: nat, k: nat, lo: int, hi: int): int
    requires |src| == width * height && 0 < height && x < width && k < 4
    decreases hi - lo
  {
    if hi <= lo then 0
    else
      PxInRange(NearestIndex(hi - 1, height), x, width, height);
      ColumnSum(src, width, height, x, k, lo, hi - 1) + Channel(src[NearestIndex(hi - 1, height) * width + x], k)
  }

  lemma ClampIsNearest(j: int, n: nat)
    requires 0 < n
    ensures Clamp(j, n) == NearestIndex(j, n)
  {
  }

  lemma {:induction false} RowSumIs(src: seq<Pixel>, width: nat, height: nat, y: nat, k: nat, lo: int, hi: int)
    requires |src| == width * height && 0 < width && y < height && k < 4 && lo <= hi
    requires Addresses(Row(y, width), width, |src|)
    ensures WindowSum(Channels(Line(src, Row(y, width), width), k), lo, hi) == RowSum(src, width, height, y, k, lo, hi)
    decreases hi - lo
  {
    if lo < hi {
      RowSumIs(src, width, height, y, k, lo, hi - 1);
      ClampIsNearest(hi - 1, width);
      PxInRange(y, NearestIndex(hi - 1, width), width, height);
    }
  }

  lemma {:induction false} ColumnSumIs(src: seq<Pixel>, width: nat, height: nat, x: nat, k: nat, lo: int, hi: int)
    requires |src| == width * height && 0 < height && x < width && k < 4 && lo <= hi
    requires Addresses(Column(x, width), height, |src|)
    ensures WindowSum(Channels(Line(src, Column(x, width), height), k), lo, hi) ==
            ColumnSum(src, width, height, x, k, lo, hi)
    decreases hi - lo
  {
    if lo < hi {
      ColumnSumIs(src, width, height, x, k, lo, hi - 1);
      ClampIsNearest(hi - 1, height);
      PxInRange(NearestIndex(hi - 1, height), x, width, height);
    }
  }

  /** The horizontal pass writes, in every channel of every pixel, the floor of the mean of its row around it. */
  lemma RowMean(src: seq<Pixel>, blurred: seq<Pixel>, width: nat, height: nat, radius: int, x: nat, y: nat, k: nat)
    requires |src| == width * height && x < width && y < height && k < 4 && 0 <= radius
    requires BlurredAlong(src, blurred, Sweep(false, width, height), radius)
    ensures 0 <= y * width + x < |blurred|
    ensures Channel(blurred[y * width + x], k) ==
            RowSum(src, width, height, y, k, x - radius, x + radius + 1) / (2 * radius + 1)
  {
    assert MeanAt(src, blurred, Sweep(false, width, height), radius, y, x, k);
    TrackAddresses(Sweep(false, width, height), y);
    PxInRange(y, x, width, height);
    RowSumIs(src, width, height, y, k, x - radius, x + radius + 1);
  }

  /** And the vertical one that of its column. */
  lemma ColumnMean(src: seq<Pixel>, blurred: seq<Pixel>, width: nat, height: nat, radius: int, x: nat, y: nat, k: nat)
    requires |src| == width * height && x < width && y < height && k < 4 && 0 <= radius
    requires BlurredAlong(src, blurred, Sweep(true, width, height), radius)
    ensures 0 <= y * width + x < |blurred|
    ensures Channel(blurred[y * width + x], k) ==
            ColumnSum(src, width, height, x, k, y - radius, y + radius + 1) / (2 * radius + 1)
  {
    assert MeanAt(src, blurred, Sweep(true, width, height), radius, x, y, k);
    TrackAddresses(Sweep(true, width, height), x);
    PxInRange(y, x, width, height);
    ColumnSumIs(src, width, height, x, k, y - radius, y + radius + 1);
  }

  // ---- the whole blur ----

  lemma ByteOfValue(a: bv8, b: bv8)
    requires a as int == b as int
    ensures a == b
  {
    assert (a as int) as bv8 == a && (b as int) as bv8 == b;
  }

  lemma EqualChannels(a: Pixel, b: Pixel)
    requires forall k :: 0 <= k < 4 ==> Channel(a, k) == Channel(b, k)
    ensures a == b
  {
    forall k | 0 <= k < 4 ensures ChannelBits(a, k) == ChannelBits(b, k) {
      assert Channel(a, k) == Channel(b, k);
      ByteOfValue(ChannelBits(a, k), ChannelBits(b, k));
    }
    ChannelsDetermine(a, b);
  }

  /** A blurred buffer is determined by its source. */
  lemma BlurIsUnique(src: seq<Pixel>, a: seq<Pixel>, b: seq<Pixel>, sweep: Sweep, radius: int)
    requires sweep.Valid() && |src| == sweep.width * sweep.height && 0 <= radius
    requires BlurredAlong(src, a, sweep, radius) && BlurredAlong(src, b, sweep, radius)
    ensures a == b
  {
    forall p | 0 <= p < |src| ensures a[p] == b[p] {
      var t, i := TracksCover(sweep, p);
      forall k | 0 <= k < 4 ensures Channel(a[p], k) == Channel(b[p], k) {
        assert MeanAt(src, a, sweep, radius, t, i, k) && MeanAt(src, b, sweep, radius, t, i, k);
      }
      EqualChannels(a[p], b[p]);
    }
  }

  /** So is an averaged one. */
  lemma AverageIsUnique(src: seq<Pixel>, a: seq<Pixel>, b: seq<Pixel>, sweep: Sweep, radius: int)
    requires sweep.Valid() && |src| == sweep.width * sweep.height && 0 <= radius
    requires AveragedAlong(src, a, sweep, radius) && AveragedAlong(src, b, sweep, radius)
    ensures a == b
  {
    forall p | 0 <= p < |src| ensures a[p] == b[p] {
      var t, i := TracksCover(sweep, p);
      assert PixelAt(src, a, sweep, radius, t, i) && PixelAt(src, b, sweep, radius, t, i);
    }
  }

  lemma LineWithin(src: seq<Pixel>, track: Track, n: nat, k: nat, lo: int, hi: int)
    requires Addresses(track, n, |src|) && k < 4 && Within(Channels(src, k), lo, hi)
    ensures Within(Channels(Line(src, track, n), k), lo, hi)
  {
    forall i | 0 <= i < n ensures lo <= Channels(Line(src, track, n), k)[i] <= hi {
      assert Channels(Line(src, track, n), k)[i] == Channels(src, k)[Cell(track, i)];
    }
  }

  lemma LinePixelWithin(src: seq<Pixel>, sweep: Sweep, radius: int, t: nat, i: nat, k: nat, lo: int, hi: int)
    requires sweep.Valid() && |src| == sweep.width * sweep.height && 0 <= radius && 2 * radius + 1 <= MAX_SUMMED
    requires t < sweep.Lines() && i < sweep.Samples() && k < 4 && Within(Channels(src, k), lo, hi)
    ensures lo <= Channel(LinePixel(src, sweep, radius, t, i), k) <= hi
  {
    TrackAddresses(sweep, t);
    LineWithin(src, sweep.TrackOf(t), sweep.Samples(), k, lo, hi);
    BlurPixelWithin(Line(src, sweep.TrackOf(t), sweep.Samples()), i, radius, k, lo, hi);
  }

  /** No pass takes a channel outside the range it had, as long as the sums fit. */
  lemma PassStaysWithin(src: seq<Pixel>, blurred: seq<Pixel>, sweep: Sweep, radius: int, k: nat, lo: int, hi: int)
    requires sweep.Valid() && |src| == sweep.width * sweep.height && k < 4
    requires 0 <= radius && 2 * radius + 1 <= MAX_SUMMED
    requires AveragedAlong(src, blurred, sweep, radius) && Within(Channels(src, k), lo, hi)
    ensures Within(Channels(blurred, k), lo, hi)
  {
    forall p | 0 <= p < |blurred| ensures lo <= Channels(blurred, k)[p] <= hi {
      var t, i := TracksCover(sweep, p);
      assert PixelAt(src, blurred, sweep, radius, t, i);
      LinePixelWithin(src, sweep, radius, t, i, k, lo, hi);
    }
  }

  ghost predicate NarrowedFrom(before: seq<Pixel>, after: seq<Pixel>) {
    forall k, lo, hi :: 0 <= k < 4 && Within(Channels(before, k), lo, hi) ==> Within(Channels(after, k), lo, hi)
  }

  lemma PassNarrows(src: seq<Pixel>, blurred: seq<Pixel>, sweep: Sweep, radius: int)
    requires sweep.Valid() && |src| == sweep.width * sweep.height && 0 <= radius && 2 * radius + 1 <= MAX_SUMMED
    requires AveragedAlong(src, blurred, sweep, radius)
    ensures NarrowedFrom(src, blurred)
  {
    forall k, lo, hi | 0 <= k < 4 && Within(Channels(src, k), lo, hi) ensures Within(Channels(blurred, k), lo, hi) {
      PassStaysWithin(src, blurred, sweep, radius, k, lo, hi);
    }
  }

  /** `after` is `before` averaged along the rows and then along the columns. */
  ghost predicate AveragedPair(before: seq<Pixel>, between: seq<Pixel>, after: seq<Pixel>, width: nat, height: nat,
                              radius: int)
    requires 0 < width && 0 < height && 0 <= radius
  {
    && |before| == |between| == width * height
    && AveragedAlong(before, between, Sweep(false, width, height), radius)
    && AveragedAlong(between, after, Sweep(true, width, height), radius)
  }

  /** The image before and after every pair of passes, and what the scratch buffer held in each. */
  datatype Trail = Trail(images: seq<seq<Pixel>>, scratch: seq<seq<Pixel>>) {
    ghost predicate Valid(width: nat, height: nat, radii: seq<int>)
      requires 0 < width && 0 < height && forall i :: 0 <= i < |radii| ==> 0 <= radii[i]
    {
      && |images| == |scratch| + 1 && |scratch| <= |radii|
      && forall i :: 0 <= i < |scratch| ==> Pair(i, width, height, radii[i])
    }

    ghost predicate Pair(i: nat, width: nat, height: nat, radius: int)
      requires 0 < width && 0 < height && 0 <= radius && i < |scratch| && |images| == |scratch| + 1
    {
      AveragedPair(images[i], scratch[i], images[i + 1], width, height, radius)
    }
  }

  lemma TrailGrows(trail: Trail, between: seq<Pixel>, after: seq<Pixel>, width: nat, height: nat, radii: seq<int>)
    requires 0 < width && 0 < height && forall i :: 0 <= i < |radii| ==> 0 <= radii[i]
    requires trail.Valid(width, height, radii) && |trail.scratch| < |radii|
    requires AveragedPair(trail.images[|trail.scratch|], between, after, width, height, radii[|trail.scratch|])
    ensures Trail(trail.images + [after], trail.scratch + [between]).Valid(width, height, radii)
  {
    var longer := Trail(trail.images + [after], trail.scratch + [between]);
    forall i | 0 <= i < |longer.scratch| ensures longer.Pair(i, width, height, radii[i]) {
      assert i < |trail.scratch| ==> trail.Pair(i, width, height, radii[i]);
    }
  }

  method BlurPair(pixels: array<Pixel>, scratch: array<Pixel>, width: nat, height: nat, radius: int)
    requires pixels != scratch && pixels.Length == scratch.Length == width * height && 0 < width && 0 < height
    requires 0 <= radius
    modifies pixels, scratch
    ensures AveragedPair(old(pixels[..]), scratch[..], pixels[..], width, height, radius)
  {
    BoxBlurHorizontal(pixels, scratch, width, height, radius);
    BoxBlurVertical(scratch, pixels, width, height, radius);
  }

  /** The pairs of passes. */
  method BlurPasses(pixels: array<Pixel>, scratch: array<Pixel>, width: nat, height: nat, radii: seq<int>)
    returns (ghost trail: Trail)
    requires pixels != scratch && pixels.Length == scratch.Length == width * height && 0 < width && 0 < height
    requires forall i :: 0 <= i < |radii| ==> 0 <= radii[i]
    modifies pixels, scratch
    ensures trail.Valid(width, height, radii) && |trail.scratch| == |radii|
    ensures trail.images[0] == old(pixels[..]) && trail.images[|radii|] == pixels[..]
  {
    trail := Trail([pixels[..]], []);
    for i := 0 to |radii|
      invariant trail.Valid(width, height, radii) && |trail.scratch| == i
      invariant trail.images[0] == old(pixels[..]) && trail.images[i] == pixels[..]
    {
      BlurPair(pixels, scratch, width, height, radii[i]);
      TrailGrows(trail, scratch[..], pixels[..], width, height, radii);
      trail := Trail(trail.images + [pixels[..]], trail.scratch + [scratch[..]]);
    }
  }

  lemma PairIsUnique(before: seq<Pixel>, between: seq<Pixel>, a: seq<Pixel>, between': seq<Pixel>, b: seq<Pixel>,
                     width: nat, height: nat, radius: int)
    requires 0 < width && 0 < height && 0 <= radius
    requires AveragedPair(before, between, a, width, height, radius)
    requires AveragedPair(before, between', b, width, height, radius)
    ensures a == b
  {
    AverageIsUnique(before, between, between', Sweep(false, width, height), radius);
    AverageIsUnique(between, a, b, Sweep(true, width, height), radius);
  }

  /** The blurred image is a function of the image and the radii. */
  lemma {:induction false} PassesAreUnique(a: Trail, b: Trail, width: nat, height: nat, radii: seq<int>, n: nat)
    requires 0 < width && 0 < height && forall i :: 0 <= i < |radii| ==> 0 <= radii[i]
    requires a.Valid(width, height, radii) && b.Valid(width, height, radii)
    requires n <= |a.scratch| && n <= |b.scratch| && a.images[0] == b.images[0]
    ensures a.images[n] == b.images[n]
  {
    if n > 0 {
      PassesAreUnique(a, b, width, height, radii, n - 1);
      assert a.Pair(n - 1, width, height, radii[n - 1]) && b.Pair(n - 1, width, height, radii[n - 1]);
      PairIsUnique(a.images[n - 1], a.scratch[n - 1], a.images[n], b.scratch[n - 1], b.images[n], width, height,
                   radii[n - 1]);
    }
  }

  lemma PairNarrows(before: seq<Pixel>, between: seq<Pixel>, after: seq<Pixel>, width: nat, height: nat, radius: int)
    requires 0 < width && 0 < height && 0 <= radius && 2 * radius + 1 <= MAX_SUMMED
    requires AveragedPair(before, between, after, width, height, radius)
    ensures |after| == |before| && NarrowedFrom(before, after)
  {
    PassNarrows(before, between, Sweep(false, width, height), radius);
    PassNarrows(between, after, Sweep(true, width, height), radius);
  }

  /** For exactly divided windows both passes of a pair write the floors of the means. */
  lemma PairBlurs(trail: Trail, width: nat, height: nat, radii: seq<int>, i: nat)
    requires 0 < width && 0 < height && forall j :: 0 <= j < |radii| ==> 0 <= radii[j]
    requires trail.Valid(width, height, radii) && i < |trail.scratch| && ExactWindow(2 * radii[i] + 1)
    ensures |trail.images[i]| == |trail.scratch[i]| == width * height
    ensures BlurredAlong(trail.images[i], trail.scratch[i], Sweep(false, width, height), radii[i])
    ensures BlurredAlong(trail.scratch[i], trail.images[i + 1], Sweep(true, width, height), radii[i])
  {
    assert trail.Pair(i, width, height, radii[i]);
    AveragesAreMeans(trail.images[i], trail.scratch[i], Sweep(false, width, height), radii[i]);
    AveragesAreMeans(trail.scratch[i], trail.images[i + 1], Sweep(true, width, height), radii[i]);
  }

  /** The sums of every window fit 32 bits. */
  predicate Summable(radii: seq<int>) {
    forall i :: 0 <= i < |radii| ==> 2 * radii[i] + 1 <= MAX_SUMMED
  }

  /** No channel of any image leaves the range it had, as long as the sums fit. */
  lemma {:induction false} PassesNarrow(trail: Trail, width: nat, height: nat, radii: seq<int>, n: nat)
    requires 0 < width && 0 < height && forall i :: 0 <= i < |radii| ==> 0 <= radii[i]
    requires trail.Valid(width, height, radii) && Summable(radii) && n <= |trail.scratch|
    ensures |trail.images[n]| == |trail.images[0]| && NarrowedFrom(trail.images[0], trail.images[n])
  {
    if n > 0 {
      PassesNarrow(trail, width, height, radii, n - 1);
      assert trail.Pair(n - 1, width, height, radii[n - 1]);
      PairNarrows(trail.images[n - 1], trail.scratch[n - 1], trail.images[n], width, height, radii[n - 1]);
    }
  }

  lemma OneColour(before: seq<Pixel>, after: seq<Pixel>, colour: Pixel)
    requires |before| == |after| && forall p :: 0 <= p < |before| ==> before[p] == colour
    requires NarrowedFrom(before, after)
    ensures after == before
  {
    forall p | 0 <= p < |after| ensures after[p] == colour {
      forall k | 0 <= k < 4 ensures Channel(after[p], k) == Channel(colour, k) {
        var level := Channel(colour, k);
        assert Within(Channels(before, k), level, level);
        assert Channels(after, k)[p] == level;
      }
      EqualChannels(after[p], colour);
    }
  }

  /** An image of one colour is a fixed point of the whole blur, as long as the sums fit. */
  lemma OneColourStays(trail: Trail, colour: Pixel, width: nat, height: nat, radii: seq<int>)
    requires 0 < width && 0 < height && forall i :: 0 <= i < |radii| ==> 0 <= radii[i]
    requires trail.Valid(width, height, radii) && Summable(radii)
    requires forall p :: 0 <= p < |trail.images[0]| ==> trail.images[0][p] == colour
    ensures trail.images[|trail.scratch|] == trail.images[0]
  {
    PassesNarrow(trail, width, height, radii, |trail.scratch|);
    OneColour(trail.images[0], trail.images[|trail.scratch|], colour);
  }
}
