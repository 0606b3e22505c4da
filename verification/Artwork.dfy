/**
  The shadow of the generated artwork (handlers/default_artwork.go): a two-pass box blur with a
  running sum, and 16-bit alpha compositing. Images start at the origin; `a[y, x]` is a pixel.
 */
module Artwork {

  newtype uint8 = x: int | 0 <= x < 0x100
  newtype uint16 = x: int | 0 <= x < 0x1_0000

  // ---------------------------------------------------------------- the direct windowed sum

  /** A line's value at `i`, zero outside the line. */
  function At(line: seq<uint8>, i: int): int {
    if 0 <= i < |line| then line[i] as int else 0
  }

  /** The sum over [lo, hi). */
  function Sum(line: seq<uint8>, lo: int, hi: int): int
    decreases hi - lo
  {
    if lo >= hi then 0 else At(line, lo) + Sum(line, lo + 1, hi)
  }

  lemma {:induction false} SumBounds(line: seq<uint8>, lo: int, hi: int)
    requires lo <= hi
    ensures 0 <= Sum(line, lo, hi) <= 255 * (hi - lo)
    decreases hi - lo
  {
    if lo < hi {
      SumBounds(line, lo + 1, hi);
    }
  }

  lemma {:induction false} SumAppend(line: seq<uint8>, lo: int, hi: int)
    requires lo <= hi
    ensures Sum(line, lo, hi + 1) == Sum(line, lo, hi) + At(line, hi)
    decreases hi - lo
  {
    if lo < hi {
      SumAppend(line, lo + 1, hi);
    } else {
      assert Sum(line, lo + 1, hi + 1) == 0;
    }
  }

  lemma MulMonotone(a: int, b: int, c: int)
    requires c >= 0
    ensures a <= b ==> a * c <= b * c
  {
    if a <= b {
      assert (b - a) * c >= 0;
    }
  }

  /** A quotient is bounded by any bound of the dividend in units of the divisor. */
  lemma DivBounds(n: int, d: int, lo: int, hi: int)
    requires d > 0 && lo * d <= n <= hi * d
    ensures lo <= n / d <= hi
  {
    var q := n / d;
    assert n == q * d + n % d;
    MulMonotone(hi + 1, q, d);
    MulMonotone(q + 1, lo, d);
    assert (hi + 1) * d == hi * d + d && (q + 1) * d == q * d + d;
  }

  /** The mean over the window of radius `r` around `i`, absent neighbours counting as zero. */
  function Mean(line: seq<uint8>, i: int, r: nat): (m: uint8)
    ensures m as int == Sum(line, i - r, i + r + 1) / (2 * r + 1)
  {
    SumBounds(line, i - r, i + r + 1);
    DivBounds(Sum(line, i - r, i + r + 1), 2 * r + 1, 0, 255);
    (Sum(line, i - r, i + r + 1) / (2 * r + 1)) as uint8
  }

  /** Moving the window by one: what leaves is subtracted, what enters is added. */
  /** A window of equal pixels sums to their number times their value; a window off the line to zero. */
  lemma {:induction false} UniformSum(line: seq<uint8>, lo: int, hi: int, v: uint8)
    requires lo <= hi
    ensures 0 <= lo && hi <= |line| && (forall i :: lo <= i < hi ==> line[i] == v) ==>
              Sum(line, lo, hi) == (hi - lo) * v as int
    ensures hi <= 0 || lo >= |line| ==> Sum(line, lo, hi) == 0
    decreases hi - lo
  {
    if lo < hi {
      UniformSum(line, lo + 1, hi, v);
      assert (hi - lo) * v as int == v as int + (hi - (lo + 1)) * v as int;
    }
  }

  /** So a uniform area keeps its value, and an empty one stays empty. */
  lemma UniformMean(line: seq<uint8>, i: int, r: nat, v: uint8)
    ensures r <= i < |line| - r && (forall k :: i - r <= k <= i + r ==> line[k] == v) ==> Mean(line, i, r) == v
    ensures i + r < 0 || i - r >= |line| ==> Mean(line, i, r) == 0
  {
    UniformSum(line, i - r, i + r + 1, v);
    if r <= i < |line| - r && (forall k :: i - r <= k <= i + r ==> line[k] == v) {
      assert Sum(line, i - r, i + r + 1) == (2 * r + 1) * v as int;
      DivBounds(Sum(line, i - r, i + r + 1), 2 * r + 1, v as int, v as int);
    }
  }

  /** One pixel brighter makes the sum larger by as much, wherever in the window it is. */
  lemma {:induction false} SumOfOne(line: seq<uint8>, lo: int, hi: int, k: int, v: uint8)
    requires lo <= k < hi && 0 <= k < |line|
    ensures Sum(line[k := v], lo, hi) == Sum(line, lo, hi) - line[k] as int + v as int
    decreases hi - lo
  {
    if lo < k {
      SumOfOne(line, lo + 1, hi, k, v);
    } else {
      SumElsewhere(line, lo + 1, hi, k, v);
    }
  }

  lemma {:induction false} SumElsewhere(line: seq<uint8>, lo: int, hi: int, k: int, v: uint8)
    requires 0 <= k < |line| && (k < lo || k >= hi)
    ensures Sum(line[k := v], lo, hi) == Sum(line, lo, hi)
    decreases hi - lo
  {
    if lo < hi {
      SumElsewhere(line, lo + 1, hi, k, v);
    }
  }

  lemma SlideWindow(line: seq<uint8>, i: int, r: nat)
    ensures Sum(line, i + 1 - r, i + r + 2) == Sum(line, i - r, i + r + 1) - At(line, i - r) + At(line, i + r + 1)
  {
    SumAppend(line, i - r, i + r + 1);
  }

  // ---------------------------------------------------------------- the two passes

  ghost function Row(a: array2<uint8>, y: int): (line: seq<uint8>)
    requires 0 <= y < a.Length0
    reads a
    ensures |line| == a.Length1
  {
    seq(a.Length1, x requires 0 <= x < a.Length1 reads a => a[y, x])
  }

  ghost function Column(a: array2<uint8>, x: int): (line: seq<uint8>)
    requires 0 <= x < a.Length1
    reads a
    ensures |line| == a.Length0
  {
    seq(a.Length0, y requires 0 <= y < a.Length0 reads a => a[y, x])
  }

  /** The horizontal pass over one row. */
  method BlurRow(src: array2<uint8>, tmp: array2<uint8>, y: int, radius: nat)
    requires tmp != src && tmp.Length0 == src.Length0 && tmp.Length1 == src.Length1 && 0 <= y < src.Length0
    modifies tmp
    ensures forall x :: 0 <= x < tmp.Length1 ==> tmp[y, x] == Mean(Row(src, y), x, radius)
    ensures forall j, x :: 0 <= j < tmp.Length0 && 0 <= x < tmp.Length1 && j != y ==> tmp[j, x] == old(tmp[j, x])
  {
    ghost var line := Row(src, y);
    var width, sum := src.Length1, 0;
    for x := 0 - radius to radius + 1
      invariant unchanged(tmp)
      invariant sum == Sum(line, 0 - radius, x)
    {
      SumAppend(line, 0 - radius, x);
      if x >= 0 && x < width {
        sum := sum + src[y, x] as int;
      }
    }
    for x := 0 to width
      invariant sum == Sum(line, x - radius, x + radius + 1) && Row(src, y) == line
      invariant forall i :: 0 <= i < x ==> tmp[y, i] == Mean(line, i, radius)
      invariant forall j, i :: 0 <= j < tmp.Length0 && 0 <= i < tmp.Length1 && j != y ==> tmp[j, i] == old(tmp[j, i])
    {
      SumBounds(line, x - radius, x + radius + 1);
      DivBounds(sum, 2 * radius + 1, 0, 255);
      tmp[y, x] := (sum / (2 * radius + 1)) as uint8;
      SlideWindow(line, x, radius);
      if x - radius >= 0 {
        sum := sum - src[y, x - radius] as int;
      }
      if x + radius + 1 < width {
        sum := sum + src[y, x + radius + 1] as int;
      }
    }
  }

  /** The vertical pass over one column. */
  method BlurColumn(tmp: array2<uint8>, dst: array2<uint8>, x: int, radius: nat)
    requires dst != tmp && dst.Length0 == tmp.Length0 && dst.Length1 == tmp.Length1 && 0 <= x < tmp.Length1
    modifies dst
    ensures forall y :: 0 <= y < dst.Length0 ==> dst[y, x] == Mean(Column(tmp, x), y, radius)
    ensures forall y, i :: 0 <= y < dst.Length0 && 0 <= i < dst.Length1 && i != x ==> dst[y, i] == old(dst[y, i])
  {
    ghost var line := Column(tmp, x);
    var height, sum := tmp.Length0, 0;
    for y := 0 - radius to radius + 1
      invariant unchanged(dst)
      invariant sum == Sum(line, 0 - radius, y)
    {
      SumAppend(line, 0 - radius, y);
      if y >= 0 && y < height {
        sum := sum + tmp[y, x] as int;
      }
    }
    for y := 0 to height
      invariant sum == Sum(line, y - radius, y + radius + 1) && Column(tmp, x) == line
      invariant forall j :: 0 <= j < y ==> dst[j, x] == Mean(line, j, radius)
      invariant forall j, i :: 0 <= j < dst.Length0 && 0 <= i < dst.Length1 && i != x ==> dst[j, i] == old(dst[j, i])
    {
      SumBounds(line, y - radius, y + radius + 1);
      DivBounds(sum, 2 * radius + 1, 0, 255);
      dst[y, x] := (sum / (2 * radius + 1)) as uint8;
      SlideWindow(line, y, radius);
      if y - radius >= 0 {
        sum := sum - tmp[y - radius, x] as int;
      }
      if y + radius + 1 < height {
        sum := sum + tmp[y + radius + 1, x] as int;
      }
    }
  }

  /** The column `x` of the horizontally blurred image. */
  ghost function BlurredColumn(src: array2<uint8>, x: int, r: nat): (line: seq<uint8>)
    reads src
    ensures |line| == src.Length0
  {
    seq(src.Length0, y requires 0 <= y < src.Length0 reads src => Mean(Row(src, y), x, r))
  }

  /** The whole blur: at every pixel the mean of the means, computed directly. */
  method BlurAlpha(src: array2<uint8>, radius: int) returns (dst: array2<uint8>)
    ensures radius < 1 ==> dst == src
    ensures radius >= 1 ==> fresh(dst) && dst.Length0 == src.Length0 && dst.Length1 == src.Length1
    ensures radius >= 1 ==> forall y, x :: 0 <= y < src.Length0 && 0 <= x < src.Length1 ==>
              dst[y, x] == Mean(BlurredColumn(src, x, radius), y, radius)
  {
    if radius < 1 {
      return src;
    }
    var tmp := new uint8[src.Length0, src.Length1]((y, x) => 0);
    dst := new uint8[src.Length0, src.Length1]((y, x) => 0);
    for y := 0 to src.Length0
      invariant forall j, i :: 0 <= j < y && 0 <= i < src.Length1 ==> tmp[j, i] == Mean(Row(src, j), i, radius)
    {
      BlurRow(src, tmp, y, radius);
    }
    for x := 0 to src.Length1
      invariant forall j, i :: 0 <= j < src.Length0 && 0 <= i < src.Length1 ==>
                  tmp[j, i] == Mean(Row(src, j), i, radius)
      invariant forall j, i :: 0 <= j < src.Length0 && 0 <= i < x ==>
                  dst[j, i] == Mean(BlurredColumn(src, i, radius), j, radius)
    {
      assert Column(tmp, x) == BlurredColumn(src, x, radius);
      BlurColumn(tmp, dst, x, radius);
    }
  }

  // ---------------------------------------------------------------- compositing

  datatype Color = Color(r: uint8, g: uint8, b: uint8, a: uint8)

  /** Mixing two channel values with weight `a` of 255, over the integers. */
  function Mix(top: int, base: int, a: int): int {
    (top * a + base * (255 - a)) / 255
  }

  /** A mix fits in 16 bits on the way and lies between the two values it mixes. */
  lemma MixBounds(top: int, base: int, a: int)
    requires 0 <= top <= 255 && 0 <= base <= 255 && 0 <= a <= 255
    ensures 0 <= top * a <= 65025 && 0 <= base * (255 - a) && top * a + base * (255 - a) <= 65025
    ensures (if top < base then top else base) <= Mix(top, base, a) <= (if top < base then base else top)
  {
    var lo, hi := if top < base then top else base, if top < base then base else top;
    var inv, n := 255 - a, top * a + base * (255 - a);
    MulMonotone(lo, top, a);
    MulMonotone(top, hi, a);
    MulMonotone(lo, base, inv);
    MulMonotone(base, hi, inv);
    MulMonotone(0, lo, a);
    MulMonotone(0, lo, inv);
    assert lo * a + lo * inv == lo * 255 && hi * a + hi * inv == hi * 255;
    MulMonotone(hi, 255, 255);
    assert lo * 255 <= n <= hi * 255;
    DivBounds(n, 255, lo, hi);
  }

  /** The weighted mean of the two values, rounded down: full weight gives the top, none the base. */
  lemma MixMeans(top: int, base: int, a: int)
    ensures 255 * Mix(top, base, a) <= a * top + (255 - a) * base < 255 * Mix(top, base, a) + 255
    ensures Mix(top, base, 255) == top && Mix(top, base, 0) == base
  {
    var n := top * a + base * (255 - a);
    assert n == 255 * (n / 255) + n % 255;
    assert top * 255 + base * (255 - 255) == 255 * top && top * 0 + base * (255 - 0) == 255 * base;
  }

  /** One channel in the source's 16-bit arithmetic: no operation wraps around. */
  method Blend(top: uint8, base: uint8, a: uint16) returns (channel: uint8)
    requires a <= 255
    ensures channel as int == Mix(top as int, base as int, a as int)
  {
    MixBounds(top as int, base as int, a as int);
    var inv: uint16 := 255 - a;
    var left: uint16 := (top as uint16) * a;
    var right: uint16 := (base as uint16) * inv;
    channel := ((left + right) / 255) as uint8;
  }

  /** The weight of a pixel: the mask's alpha scaled by the colour's. */
  function Weight(mask: uint8, alpha: uint8): int {
    (mask as int * alpha as int) / 255
  }

  lemma WeightFits(mask: uint8, alpha: uint8)
    ensures 0 <= mask as int * alpha as int <= 65025 && 0 <= Weight(mask, alpha) <= 255
  {
    assert mask as int * alpha as int <= 255 * alpha as int;
  }

  function Composited(base: Color, mask: uint8, c: Color): (r: Color)
    ensures Weight(mask, c.a) == 0 ==> r == base
  {
    var a := Weight(mask, c.a);
    WeightFits(mask, c.a);
    if a == 0 then base
    else
      MixBounds(c.r as int, base.r as int, a);
      MixBounds(c.g as int, base.g as int, a);
      MixBounds(c.b as int, base.b as int, a);
      Color(Mix(c.r as int, base.r as int, a) as uint8, Mix(c.g as int, base.g as int, a) as uint8,
            Mix(c.b as int, base.b as int, a) as uint8, 255)
  }

  /** `value` is the mean of the two with weight `w` of 255, rounded down. */
  predicate Blended(value: uint8, top: uint8, base: uint8, w: int) {
    255 * value as int <= w * top as int + (255 - w) * base as int < 255 * value as int + 255
  }

  /** A composite, channel by channel: nothing where the weight rounds to zero, otherwise opaque and blended. */
  lemma CompositedMeans(base: Color, mask: uint8, c: Color)
    ensures var w, r := Weight(mask, c.a), Composited(base, mask, c);
            && 255 * w <= mask as int * c.a as int < 255 * w + 255
            && (w == 0 ==> r == base)
            && (w != 0 ==> r.a == 255 && Blended(r.r, c.r, base.r, w) && Blended(r.g, c.g, base.g, w)
                           && Blended(r.b, c.b, base.b, w))
  {
    var w := Weight(mask, c.a);
    WeightFits(mask, c.a);
    MixMeans(c.r as int, base.r as int, w);
    MixMeans(c.g as int, base.g as int, w);
    MixMeans(c.b as int, base.b as int, w);
    MixBounds(c.r as int, base.r as int, w);
    MixBounds(c.g as int, base.g as int, w);
    MixBounds(c.b as int, base.b as int, w);
  }

  method CompositePixel(base: Color, mask: uint8, c: Color) returns (r: Color)
    ensures r == Composited(base, mask, c)
  {
    WeightFits(mask, c.a);
    var a: uint16 := (mask as uint16) * (c.a as uint16) / 255;
    if a == 0 {
      return base;
    }
    var red := Blend(c.r, base.r, a);
    var green := Blend(c.g, base.g, a);
    var blue := Blend(c.b, base.b, a);
    r := Color(red, green, blue, 255);
  }

  /** Every pixel the mask covers; reads and writes outside the image are ignored. */
  method CompositeAlpha(dst: array2<Color>, mask: array2<uint8>, c: Color)
    modifies dst
    ensures forall y, x :: 0 <= y < dst.Length0 && 0 <= x < dst.Length1 ==>
              dst[y, x] == if y < mask.Length0 && x < mask.Length1 then Composited(old(dst[y, x]), mask[y, x], c)
                else old(dst[y, x])
  {
    for y := 0 to mask.Length0
      invariant forall j, i :: 0 <= j < dst.Length0 && 0 <= i < dst.Length1 ==>
                  dst[j, i] == if j < y && i < mask.Length1 then Composited(old(dst[j, i]), mask[j, i], c)
                    else old(dst[j, i])
    {
      for x := 0 to mask.Length1
        invariant forall j, i :: 0 <= j < dst.Length0 && 0 <= i < dst.Length1 ==>
                    dst[j, i] == if (j < y && i < mask.Length1) || (j == y && i < x)
                      then Composited(old(dst[j, i]), mask[j, i], c) else old(dst[j, i])
      {
        if y < dst.Length0 && x < dst.Length1 {
          var pixel := CompositePixel(dst[y, x], mask[y, x], c);
          dst[y, x] := pixel;
        }
      }
    }
  }
}
