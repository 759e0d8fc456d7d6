/** The output-size rule of the frame capture: a video frame of `w` by `h`
    pixels is drawn unchanged when it fits the pixel budget, and otherwise
    scaled by `sqrt(budget / (w * h))` with each side rounded to the nearest
    integer.

    `Math.sqrt` and `Math.round` are modelled over idealised reals: the scale
    is any positive real whose square times `w * h` is exactly the budget
    (`IsScale`), and rounding is `floor(x + 0.5)`. `ComputeOutputSize` is an
    integer-only reference computation, proved to agree with the real one. */
module Downscale {

  /** Pixel budget above which a frame is downscaled (about two megapixels). */
  const MaxPixels: nat := 2_000_000

  datatype Size = Size(width: nat, height: nat)

  /** `s` is the idealised value of `Math.sqrt(MaxPixels / (w * h))`. */
  predicate IsScale(w: nat, h: nat, s: real) {
    w * h > 0 && s > 0.0 && s * s * ((w * h) as real) == MaxPixels as real
  }

  /** `n` is the nearest integer to `x`, halves rounded up. */
  predicate NearestTo(n: int, x: real) {
    n as real - 0.5 <= x < n as real + 0.5
  }

  /** `Math.round` on an idealised real: `floor(x + 0.5)`. */
  function RoundHalfUp(x: real): (r: int)
    ensures NearestTo(r, x)
  {
    (x + 0.5).Floor
  }

  /** The canvas size chosen for a frame of `w` by `h` pixels, where `s` is
      the square root computed in the scaled branch (ignored otherwise). */
  function OutputSize(w: nat, h: nat, s: real): (r: Size)
    requires w * h > MaxPixels ==> IsScale(w, h, s)
    ensures w * h <= MaxPixels ==> r == Size(w, h)
    ensures r.width <= w && r.height <= h
    ensures w * h > MaxPixels ==>
              NearestTo(r.width, w as real * s) && NearestTo(r.height, h as real * s)
  {
    if w * h <= MaxPixels then Size(w, h)
    else
      ScaleBelowOne(w, h, s);
      Size(ScaledSide(w, s), ScaledSide(h, s))
  }

  /** One side of a downscaled frame. */
  function ScaledSide(x: nat, s: real): (r: nat)
    requires 0.0 < s < 1.0
    ensures r <= x
    ensures NearestTo(r, x as real * s)
  {
    assert 0.0 <= x as real * s <= x as real by { ProductBelow(x as real, s); }
    RoundHalfUp(x as real * s)
  }

  lemma ProductBelow(x: real, s: real)
    requires x >= 0.0 && 0.0 < s < 1.0
    ensures 0.0 <= x * s <= x
  {
  }

  /** Above the budget the scale is strictly below one: the rule never upscales. */
  lemma ScaleBelowOne(w: nat, h: nat, s: real)
    requires w * h > MaxPixels && IsScale(w, h, s)
    ensures 0.0 < s < 1.0
  {
  }

  /** Before rounding, the scaled frame has exactly the budget's area and the
      original aspect ratio. */
  lemma IdealScaledFrame(w: nat, h: nat, s: real)
    requires w * h > MaxPixels && IsScale(w, h, s)
    ensures (w as real * s) * (h as real * s) == MaxPixels as real
    ensures (w as real * s) * (h as real) == (h as real * s) * (w as real)
  {
  }

  lemma CastProduct(a: int, b: int)
    ensures (a * b) as real == a as real * b as real
  {
  }

  /** Integer test that `r` is the rounded value of `x * s` for the scale of a
      `w` by `h` frame: `(x*s)^2 = x^2 * MaxPixels / (w*h)` lies in
      `[(r - 1/2)^2, (r + 1/2)^2)`, multiplied through by `4 * w * h`. */
  predicate RoundsTo(x: nat, w: nat, h: nat, r: nat) {
    && 4 * x * x * MaxPixels < (2 * r + 1) * (2 * r + 1) * (w * h)
    && (r == 0 || (2 * r - 1) * (2 * r - 1) * (w * h) <= 4 * x * x * MaxPixels)
  }

  /** The integer test agrees with rounding the idealised real product. */
  lemma RoundsToMeansRounded(x: nat, w: nat, h: nat, s: real, r: nat)
    requires IsScale(w, h, s)
    requires RoundsTo(x, w, h, r)
    ensures RoundHalfUp(x as real * s) == r
  {
    var area := (w * h) as real;
    var y := x as real * s;
    var target := (4 * x * x * MaxPixels) as real;
    assert area > 0.0;
    assert 4.0 * y * y * area == target by {
      CastProduct(4 * x * x, MaxPixels);
      CastProduct(4 * x, x);
      CastProduct(4, x);
      assert 4.0 * y * y * area == 4.0 * (x as real) * (x as real) * (s * s * area);
    }
    var hi := 2 * r + 1;
    assert 2.0 * y < hi as real by {
      CastProduct(hi * hi, w * h);
      CastProduct(hi, hi);
      assert (2.0 * y) * (2.0 * y) * area < (hi as real) * (hi as real) * area;
      CancelArea((2.0 * y) * (2.0 * y), (hi as real) * (hi as real), area, true);
      SquareMonotone(2.0 * y, hi as real, true);
    }
    if r > 0 {
      var lo := 2 * r - 1;
      assert lo as real <= 2.0 * y by {
        CastProduct(lo * lo, w * h);
        CastProduct(lo, lo);
        assert (lo as real) * (lo as real) * area <= (2.0 * y) * (2.0 * y) * area;
        CancelArea((lo as real) * (lo as real), (2.0 * y) * (2.0 * y), area, false);
        SquareMonotone(lo as real, 2.0 * y, false);
      }
    }
    assert r as real <= y + 0.5 < r as real + 1.0;
  }

  /** Dividing an inequality by a positive area. */
  lemma CancelArea(a: real, b: real, area: real, strict: bool)
    requires area > 0.0
    requires if strict then a * area < b * area else a * area <= b * area
    ensures if strict then a < b else a <= b
  {
  }

  /** Squaring is monotone on non-negative reals. */
  lemma SquareMonotone(a: real, b: real, strict: bool)
    requires 0.0 <= a && 0.0 <= b
    requires if strict then a * a < b * b else a * a <= b * b
    ensures if strict then a < b else a <= b
  {
    if a + b > 0.0 {
      assert (b - a) * (a + b) == b * b - a * a;
      assert b - a == (b * b - a * a) / (a + b);
    }
  }

  /** While the search continues below the budget's rounding bound, the
      side has not reached its original length. */
  lemma SearchStaysBelowSide(r: nat, x: nat, w: nat, h: nat)
    requires w * h > MaxPixels
    requires (2 * r + 1) * (2 * r + 1) * (w * h) <= 4 * x * x * MaxPixels
    ensures r < x
  {
    var k := 2 * r + 1;
    var area := w * h;
    assert 4 * x * x * MaxPixels <= 4 * x * x * area by {
      assert 4 * x * x * area - 4 * x * x * MaxPixels == (4 * x * x) * (area - MaxPixels);
    }
    assert (k * k) * area <= ((2 * x) * (2 * x)) * area;
    IntSquareMonotone(k, 2 * x, area);
  }

  /** Over a positive factor, squares of naturals compare as the naturals do. */
  lemma IntSquareMonotone(a: nat, b: nat, c: nat)
    requires c > 0 && (a * a) * c <= (b * b) * c
    ensures a <= b
  {
    CastProduct(a * a, c);
    CastProduct(b * b, c);
    CastProduct(a, a);
    CastProduct(b, b);
    CancelArea((a as real) * (a as real), (b as real) * (b as real), c as real, false);
    SquareMonotone(a as real, b as real, false);
  }

  /** Rounds one side of a frame above the budget by integer search: the
      least `r` whose upper rounding bound exceeds the side's ideal length. */
  method ScaledDimension(x: nat, w: nat, h: nat) returns (r: nat)
    requires w * h > MaxPixels
    ensures r <= x
    ensures RoundsTo(x, w, h, r)
  {
    r := 0;
    while (2 * r + 1) * (2 * r + 1) * (w * h) <= 4 * x * x * MaxPixels
      invariant r <= x
      invariant r == 0 || (2 * r - 1) * (2 * r - 1) * (w * h) <= 4 * x * x * MaxPixels
      decreases x - r
    {
      SearchStaysBelowSide(r, x, w, h);
      r := r + 1;
    }
  }

  /** Integer-only computation of the canvas size; it never upscales and
      agrees with the idealised real rule for every admissible square root. */
  method ComputeOutputSize(w: nat, h: nat) returns (r: Size)
    ensures w * h <= MaxPixels ==> r == Size(w, h)
    ensures r.width <= w && r.height <= h
    ensures forall s :: IsScale(w, h, s) ==> r == OutputSize(w, h, s)
  {
    if w * h <= MaxPixels {
      return Size(w, h);
    }
    var width := ScaledDimension(w, w, h);
    var height := ScaledDimension(h, w, h);
    r := Size(width, height);
    forall s | IsScale(w, h, s)
      ensures r == OutputSize(w, h, s)
    {
      RoundsToMeansRounded(w, w, h, s, width);
      RoundsToMeansRounded(h, w, h, s, height);
    }
  }

  /** A 4000 by 3000 frame rounds to 1633 by 1225, which is 425 pixels over
      the budget: the rule caps the size only approximately. */
  lemma RoundedSizeMayExceedBudget(s: real)
    requires IsScale(4000, 3000, s)
    ensures OutputSize(4000, 3000, s) == Size(1633, 1225)
    ensures 1633 * 1225 > MaxPixels
  {
    RoundsToMeansRounded(4000, 4000, 3000, s, 1633);
    RoundsToMeansRounded(3000, 4000, 3000, s, 1225);
  }
}
