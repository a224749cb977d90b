// What the logo box filter computes (downscale in internals/app/brand/service.go), on values.
module BoxFilter {
  import opened Basics

  type Byte = x: int | 0 <= x < 256

  datatype Pixel = Pixel(r: Byte, g: Byte, b: Byte, a: Byte)

  datatype Channel = Red | Green | Blue | Alpha | Unit

  /** What one pixel adds to a box's sum; colours are weighted by alpha. */
  function Part(p: Pixel, ch: Channel): nat {
    match ch
    case Red => p.r * p.a
    case Green => p.g * p.a
    case Blue => p.b * p.a
    case Alpha => p.a
    case Unit => 1
  }

  function Colour(p: Pixel, ch: Channel): nat {
    match ch
    case Red => p.r
    case Green => p.g
    case Blue => p.b
    case Alpha => p.a
    case Unit => 1
  }

  predicate IsImage(px: seq<seq<Pixel>>, w: nat, h: nat) {
    |px| == h && forall y :: 0 <= y < h ==> |px[y]| == w
  }

  // --- sizes ----------------------------------------------------------------------------------------

  function NewSize(w: nat, h: nat, maxDim: nat): (nat, nat)
    requires w >= 1 && h >= 1
  {
    if w >= h then (maxDim, Max(1, h * maxDim / w)) else (Max(1, w * maxDim / h), maxDim)
  }

  lemma ShrunkSide(side: nat, longest: nat, maxDim: nat)
    requires 1 <= side <= longest && 1 <= maxDim < longest
    ensures 1 <= Max(1, side * maxDim / longest) <= side
    ensures Max(1, side * maxDim / longest) <= maxDim
  {
    assert side * maxDim <= side * longest;
    assert side * maxDim <= longest * maxDim;
    DivBound(side * maxDim, longest, side);
    DivBound(side * maxDim, longest, maxDim);
  }

  lemma Scale(a: nat, b: nat, k: nat)
    requires a <= b
    ensures a * k <= b * k
  {
  }

  lemma Cancel(a: nat, b: nat, k: nat)
    requires a * k < b * k
    ensures a < b
  {
    if b <= a {
      Scale(b, a, k);
    }
  }

  lemma Quotient(a: nat, d: nat)
    requires d > 0
    ensures a / d * d <= a < (a / d + 1) * d
  {
    assert a == a / d * d + a % d;
  }

  lemma Overshoot(a: nat, d: nat, q: nat)
    requires d > 0 && q < a / d
    ensures q * d + d <= a
  {
    Quotient(a, d);
    Scale(q + 1, a / d, d);
    assert (q + 1) * d == q * d + d;
  }

  lemma DivBound(a: nat, d: nat, q: nat)
    requires d > 0 && a <= q * d
    ensures a / d <= q
  {
    var p := q * d;
    if q < a / d {
      Overshoot(a, d, q);
    }
  }

  lemma DivAtLeast(a: nat, d: nat, q: nat)
    requires d > 0 && q * d <= a
    ensures q <= a / d
  {
    Quotient(a, d);
    Cancel(q, a / d + 1, d);
  }

  /** A picture that is too large gets maxDim as its longest side and neither side grows. */
  lemma LongestSideIsMaxDim(w: nat, h: nat, maxDim: nat)
    requires w >= 1 && h >= 1 && maxDim >= 1 && (w > maxDim || h > maxDim)
    ensures var (nw, nh) := NewSize(w, h, maxDim);
      1 <= nw <= w && 1 <= nh <= h && Max(nw, nh) == maxDim
  {
    if w >= h {
      ShrunkSide(h, w, maxDim);
    } else {
      ShrunkSide(w, h, maxDim);
    }
  }

  lemma ScaledSide(a: nat, d: nat)
    requires d > 0
    ensures var n := Max(1, a / d); a < (n + 1) * d && (n > 1 ==> n * d <= a)
  {
    Quotient(a, d);
    var q := a / d;
    if q == 0 {
      Scale(1, 2, d);
    }
  }

  /** The picture keeps its proportions: the longer side becomes maxDim, and the other the whole part
      of what the same scale makes of it - but at least one pixel. */
  lemma ProportionsAreKept(w: nat, h: nat, maxDim: nat)
    requires w >= 1 && h >= 1 && maxDim >= 1 && (w > maxDim || h > maxDim)
    ensures var (nw, nh) := NewSize(w, h, maxDim);
      && (w >= h ==> nw == maxDim && h * maxDim < (nh + 1) * w && (nh > 1 ==> nh * w <= h * maxDim))
      && (h > w ==> nh == maxDim && w * maxDim < (nw + 1) * h && (nw > 1 ==> nw * h <= w * maxDim))
  {
    if w >= h {
      ScaledSide(h * maxDim, w);
    } else {
      ScaledSide(w * maxDim, h);
    }
  }

  // --- boxes ----------------------------------------------------------------------------------------

  function Lo(i: nat, size: nat, n: nat): nat
    requires n > 0
  {
    i * size / n
  }

  function Hi(i: nat, size: nat, n: nat): nat
    requires n > 0
  {
    Max((i + 1) * size / n, i * size / n + 1)
  }

  lemma NextBox(i: nat, size: nat, n: nat)
    requires 0 < n <= size
    ensures Lo(i, size, n) < Lo(i + 1, size, n) == Hi(i, size, n)
  {
    Quotient(i * size, n);
    OneMore(i, size, i * size / n, n);
    DivAtLeast((i + 1) * size, n, i * size / n + 1);
  }

  lemma OneMore(i: nat, size: nat, q: nat, n: nat)
    requires q * n <= i * size && n <= size
    ensures (q + 1) * n <= (i + 1) * size
  {
  }

  lemma LastBoxEnds(size: nat, n: nat)
    requires n > 0
    ensures Lo(n, size, n) == size && Lo(0, size, n) == 0
  {
    DivAtLeast(n * size, n, size);
    DivBound(n * size, n, size);
  }

  lemma {:induction false} BoxesInOrder(i: nat, j: nat, size: nat, n: nat)
    requires 0 < n <= size && i <= j
    ensures Lo(i, size, n) <= Lo(j, size, n)
  {
    if i < j {
      BoxesInOrder(i, j - 1, size, n);
      NextBox(j - 1, size, n);
    }
  }

  ghost predicate InBox(s: nat, i: nat, size: nat, n: nat)
    requires n > 0
  {
    Lo(i, size, n) <= s < Hi(i, size, n)
  }

  /** A source pixel is in the box of the destination pixel its far edge falls into once scaled. */
  lemma InBoxIff(s: nat, i: nat, size: nat, n: nat)
    requires 0 < n <= size
    ensures InBox(s, i, size, n) <==> i * size < (s + 1) * n <= (i + 1) * size
  {
    NextBox(i, size, n);
    Quotient(i * size, n);
    Quotient((i + 1) * size, n);
    LessIff(s, i * size, n);
    LessIff(s, (i + 1) * size, n);
  }

  lemma LessIff(s: nat, a: nat, n: nat)
    requires n > 0
    ensures a / n <= s <==> a < (s + 1) * n
  {
    Quotient(a, n);
    if a / n <= s {
      Scale(a / n + 1, s + 1, n);
    } else {
      Scale(s + 1, a / n, n);
    }
  }

  ghost predicate Covered(s: nat, size: nat, n: nat)
    requires n > 0
  {
    exists i: nat :: i < n && InBox(s, i, size, n)
  }

  lemma {:induction false} SomeBoxBelow(s: nat, size: nat, n: nat, j: nat)
    requires 0 < n <= size && j <= n && s < Lo(j, size, n)
    ensures exists i: nat :: i < j && InBox(s, i, size, n)
  {
    LastBoxEnds(size, n);
    if j > 0 {
      NextBox(j - 1, size, n);
      if s < Lo(j - 1, size, n) {
        SomeBoxBelow(s, size, n, j - 1);
        var i: nat :| i < j - 1 && InBox(s, i, size, n);
      } else {
        assert InBox(s, j - 1, size, n);
      }
    }
  }

  /** The boxes partition the source: none is empty or out of bounds, and every source row or
      column is in exactly one. */
  lemma BoxesPartition(size: nat, n: nat)
    requires 0 < n <= size
    ensures forall i :: 0 <= i < n ==> Lo(i, size, n) < Hi(i, size, n) <= size
    ensures forall s: nat :: s < size ==> Covered(s, size, n)
    ensures forall s: nat, i: nat, j: nat :: InBox(s, i, size, n) && InBox(s, j, size, n) ==> i == j
  {
    LastBoxEnds(size, n);
    forall i | 0 <= i < n ensures Lo(i, size, n) < Hi(i, size, n) <= size {
      NextBox(i, size, n);
      BoxesInOrder(i + 1, n, size, n);
    }
    forall s: nat | s < size ensures Covered(s, size, n) {
      SomeBoxBelow(s, size, n, n);
    }
    forall s: nat, i: nat, j: nat | InBox(s, i, size, n) && InBox(s, j, size, n) ensures i == j {
      OneBoxOnly(s, i, j, size, n);
    }
  }

  lemma OneBoxOnly(s: nat, i: nat, j: nat, size: nat, n: nat)
    requires 0 < n <= size && InBox(s, i, size, n) && InBox(s, j, size, n)
    ensures i == j
  {
    NextBox(i, size, n);
    NextBox(j, size, n);
    if i < j {
      BoxesInOrder(i + 1, j, size, n);
    } else if j < i {
      BoxesInOrder(j + 1, i, size, n);
    }
  }

  // --- sums -----------------------------------------------------------------------------------------

  function RowSum(row: seq<Pixel>, x0: nat, x1: nat, ch: Channel): nat
    requires x1 <= |row|
  {
    if x0 >= x1 then 0 else RowSum(row, x0, x1 - 1, ch) + Part(row[x1 - 1], ch)
  }

  function BoxSum(px: seq<seq<Pixel>>, w: nat, h: nat, y0: nat, y1: nat, x0: nat, x1: nat, ch: Channel): nat
    requires IsImage(px, w, h) && y1 <= h && x1 <= w
  {
    if y0 >= y1 then 0 else BoxSum(px, w, h, y0, y1 - 1, x0, x1, ch) + RowSum(px[y1 - 1], x0, x1, ch)
  }

  /** The averaged pixel of a box: alpha over all pixels, colours weighted by alpha. */
  function Average(px: seq<seq<Pixel>>, w: nat, h: nat, y0: nat, y1: nat, x0: nat, x1: nat): Pixel
    requires IsImage(px, w, h) && y0 < y1 <= h && x0 < x1 <= w
  {
    hide BoxSum;
    SumsBound(px, w, h, y0, y1, x0, x1);
    var a, n := BoxSum(px, w, h, y0, y1, x0, x1, Alpha), BoxSum(px, w, h, y0, y1, x0, x1, Unit);
    var alpha: Byte := a / n;
    if a == 0 then Pixel(0, 0, 0, alpha)
    else
      Pixel(BoxSum(px, w, h, y0, y1, x0, x1, Red) / a, BoxSum(px, w, h, y0, y1, x0, x1, Green) / a,
            BoxSum(px, w, h, y0, y1, x0, x1, Blue) / a, alpha)
  }

  lemma {:induction false} UnitRow(row: seq<Pixel>, x0: nat, x1: nat)
    requires x0 <= x1 <= |row|
    ensures RowSum(row, x0, x1, Unit) == x1 - x0
  {
    if x0 < x1 {
      UnitRow(row, x0, x1 - 1);
    }
  }

  /** The number of pixels in a box. */
  lemma {:induction false} UnitBox(px: seq<seq<Pixel>>, w: nat, h: nat, y0: nat, y1: nat, x0: nat, x1: nat)
    requires IsImage(px, w, h) && y0 <= y1 <= h && x0 <= x1 <= w
    ensures BoxSum(px, w, h, y0, y1, x0, x1, Unit) == (y1 - y0) * (x1 - x0)
  {
    if y0 < y1 {
      UnitBox(px, w, h, y0, y1 - 1, x0, x1);
      UnitRow(px[y1 - 1], x0, x1);
    }
  }

  /** lo * base <= part <= hi * base for every pixel gives the same for the sums. */
  ghost predicate Between(p: Pixel, lo: nat, hi: nat, ch: Channel, base: Channel) {
    lo * Part(p, base) <= Part(p, ch) <= hi * Part(p, base)
  }

  lemma {:induction false} RowBetween(row: seq<Pixel>, x0: nat, x1: nat, lo: nat, hi: nat, ch: Channel, base: Channel)
    requires x1 <= |row| && forall x :: x0 <= x < x1 ==> Between(row[x], lo, hi, ch, base)
    ensures lo * RowSum(row, x0, x1, base) <= RowSum(row, x0, x1, ch) <= hi * RowSum(row, x0, x1, base)
  {
    if x0 < x1 {
      RowBetween(row, x0, x1 - 1, lo, hi, ch, base);
      assert Between(row[x1 - 1], lo, hi, ch, base);
      Distribute(lo, RowSum(row, x0, x1 - 1, base), Part(row[x1 - 1], base));
      Distribute(hi, RowSum(row, x0, x1 - 1, base), Part(row[x1 - 1], base));
    }
  }

  lemma Distribute(k: nat, a: nat, b: nat)
    ensures k * (a + b) == k * a + k * b
  {
  }

  lemma {:induction false} BoxBetween(px: seq<seq<Pixel>>, w: nat, h: nat, y0: nat, y1: nat, x0: nat, x1: nat,
                                      lo: nat, hi: nat, ch: Channel, base: Channel)
    requires IsImage(px, w, h) && y1 <= h && x1 <= w
    requires forall y, x :: y0 <= y < y1 && x0 <= x < x1 ==> Between(px[y][x], lo, hi, ch, base)
    ensures var sum, bases := BoxSum(px, w, h, y0, y1, x0, x1, ch), BoxSum(px, w, h, y0, y1, x0, x1, base);
      lo * bases <= sum <= hi * bases
  {
    if y0 < y1 {
      BoxBetween(px, w, h, y0, y1 - 1, x0, x1, lo, hi, ch, base);
      RowBetween(px[y1 - 1], x0, x1, lo, hi, ch, base);
      Distribute(lo, BoxSum(px, w, h, y0, y1 - 1, x0, x1, base), RowSum(px[y1 - 1], x0, x1, base));
      Distribute(hi, BoxSum(px, w, h, y0, y1 - 1, x0, x1, base), RowSum(px[y1 - 1], x0, x1, base));
    }
  }

  lemma QuotientBetween(lo: nat, hi: nat, sum: nat, base: nat)
    requires base > 0 && lo * base <= sum <= hi * base
    ensures lo <= sum / base <= hi
  {
    DivBound(sum, base, hi);
    DivAtLeast(sum, base, lo);
  }

  lemma PartBounds(p: Pixel, ch: Channel)
    ensures ch.Alpha? ==> Between(p, 0, 255, ch, Unit)
    ensures ch in {Red, Green, Blue} ==> Between(p, 0, 255, ch, Alpha)
  {
    assert forall c: nat :: c < 256 ==> 0 <= c * p.a <= 255 * p.a;
  }

  /** Average's quotients are bytes and its pixel count is positive. */
  lemma SumsBound(px: seq<seq<Pixel>>, w: nat, h: nat, y0: nat, y1: nat, x0: nat, x1: nat)
    requires IsImage(px, w, h) && y0 < y1 <= h && x0 < x1 <= w
    ensures var a, n := BoxSum(px, w, h, y0, y1, x0, x1, Alpha), BoxSum(px, w, h, y0, y1, x0, x1, Unit);
      && n > 0 && a / n <= 255
      && (a > 0 ==>
            && BoxSum(px, w, h, y0, y1, x0, x1, Red) / a <= 255
            && BoxSum(px, w, h, y0, y1, x0, x1, Green) / a <= 255
            && BoxSum(px, w, h, y0, y1, x0, x1, Blue) / a <= 255)
  {
    UnitBox(px, w, h, y0, y1, x0, x1);
    assert (y1 - y0) * (x1 - x0) > 0;
    ByteAverage(px, w, h, y0, y1, x0, x1, Alpha, Unit);
    if BoxSum(px, w, h, y0, y1, x0, x1, Alpha) > 0 {
      ByteAverage(px, w, h, y0, y1, x0, x1, Red, Alpha);
      ByteAverage(px, w, h, y0, y1, x0, x1, Green, Alpha);
      ByteAverage(px, w, h, y0, y1, x0, x1, Blue, Alpha);
    }
  }

  lemma ByteAverage(px: seq<seq<Pixel>>, w: nat, h: nat, y0: nat, y1: nat, x0: nat, x1: nat, ch: Channel, base: Channel)
    requires IsImage(px, w, h) && y0 < y1 <= h && x0 < x1 <= w
    requires (ch == Alpha && base == Unit) || (ch in {Red, Green, Blue} && base == Alpha)
    requires BoxSum(px, w, h, y0, y1, x0, x1, base) > 0
    ensures BoxSum(px, w, h, y0, y1, x0, x1, ch) / BoxSum(px, w, h, y0, y1, x0, x1, base) <= 255
  {
    forall y, x | y0 <= y < y1 && x0 <= x < x1 ensures Between(px[y][x], 0, 255, ch, base) {
      PartBounds(px[y][x], ch);
    }
    BoxBetween(px, w, h, y0, y1, x0, x1, 0, 255, ch, base);
    QuotientBetween(0, 255, BoxSum(px, w, h, y0, y1, x0, x1, ch), BoxSum(px, w, h, y0, y1, x0, x1, base));
  }

  // --- what the sums and the average are --------------------------------------------------------------

  /** The sums count each pixel of the box once: one pixel adds its part, and a box cut in two by a
      row or a column has the sum of both halves. */
  lemma OnePixelBox(px: seq<seq<Pixel>>, w: nat, h: nat, y: nat, x: nat, ch: Channel)
    requires IsImage(px, w, h) && y < h && x < w
    ensures BoxSum(px, w, h, y, y + 1, x, x + 1, ch) ==
      match ch
      case Red => px[y][x].r * px[y][x].a
      case Green => px[y][x].g * px[y][x].a
      case Blue => px[y][x].b * px[y][x].a
      case Alpha => px[y][x].a
      case Unit => 1
  {
    assert RowSum(px[y], x, x, ch) == 0;
    assert RowSum(px[y], x, x + 1, ch) == Part(px[y][x], ch);
    assert BoxSum(px, w, h, y, y, x, x + 1, ch) == 0;
  }

  lemma {:induction false} CutByRow(px: seq<seq<Pixel>>, w: nat, h: nat, y0: nat, m: nat, y1: nat, x0: nat, x1: nat,
                                    ch: Channel)
    requires IsImage(px, w, h) && y0 <= m <= y1 <= h && x1 <= w
    ensures BoxSum(px, w, h, y0, y1, x0, x1, ch)
            == BoxSum(px, w, h, y0, m, x0, x1, ch) + BoxSum(px, w, h, m, y1, x0, x1, ch)
  {
    if m < y1 {
      CutByRow(px, w, h, y0, m, y1 - 1, x0, x1, ch);
    }
  }

  lemma {:induction false} CutRow(row: seq<Pixel>, x0: nat, m: nat, x1: nat, ch: Channel)
    requires x0 <= m <= x1 <= |row|
    ensures RowSum(row, x0, x1, ch) == RowSum(row, x0, m, ch) + RowSum(row, m, x1, ch)
  {
    if m < x1 {
      CutRow(row, x0, m, x1 - 1, ch);
    }
  }

  lemma {:induction false} CutByColumn(px: seq<seq<Pixel>>, w: nat, h: nat, y0: nat, y1: nat, x0: nat, m: nat, x1: nat,
                                       ch: Channel)
    requires IsImage(px, w, h) && y0 <= y1 <= h && x0 <= m <= x1 <= w
    ensures BoxSum(px, w, h, y0, y1, x0, x1, ch)
            == BoxSum(px, w, h, y0, y1, x0, m, ch) + BoxSum(px, w, h, y0, y1, m, x1, ch)
  {
    if y0 < y1 {
      CutByColumn(px, w, h, y0, y1 - 1, x0, m, x1, ch);
      CutRow(px[y1 - 1], x0, m, x1, ch);
    }
  }

  /** The average is the weighted mean, cut to a whole number: alpha over the pixels, each colour over
      the alphas; nothing visible is black. */
  lemma AverageIsMean(px: seq<seq<Pixel>>, w: nat, h: nat, y0: nat, y1: nat, x0: nat, x1: nat)
    requires IsImage(px, w, h) && y0 < y1 <= h && x0 < x1 <= w
    ensures var p, a := Average(px, w, h, y0, y1, x0, x1), BoxSum(px, w, h, y0, y1, x0, x1, Alpha);
      && p.a * ((y1 - y0) * (x1 - x0)) <= a < (p.a + 1) * ((y1 - y0) * (x1 - x0))
      && (a == 0 ==> p == Pixel(0, 0, 0, 0))
      && (a > 0 ==>
            && p.r * a <= BoxSum(px, w, h, y0, y1, x0, x1, Red) < (p.r + 1) * a
            && p.g * a <= BoxSum(px, w, h, y0, y1, x0, x1, Green) < (p.g + 1) * a
            && p.b * a <= BoxSum(px, w, h, y0, y1, x0, x1, Blue) < (p.b + 1) * a)
  {
    hide BoxSum;
    UnitBox(px, w, h, y0, y1, x0, x1);
    SumsBound(px, w, h, y0, y1, x0, x1);
    var a, n := BoxSum(px, w, h, y0, y1, x0, x1, Alpha), (y1 - y0) * (x1 - x0);
    Quotient(a, n);
    if a > 0 {
      Quotient(BoxSum(px, w, h, y0, y1, x0, x1, Red), a);
      Quotient(BoxSum(px, w, h, y0, y1, x0, x1, Green), a);
      Quotient(BoxSum(px, w, h, y0, y1, x0, x1, Blue), a);
    } else {
      DivBound(0, n, 0);
    }
  }

  // --- what the average means -----------------------------------------------------------------------

  /** Each output colour lies between the least and the greatest of the visible pixels in its box. */
  lemma ColourIsBetween(px: seq<seq<Pixel>>, w: nat, h: nat, y0: nat, y1: nat, x0: nat, x1: nat,
                        ch: Channel, lo: nat, hi: nat)
    requires IsImage(px, w, h) && y0 < y1 <= h && x0 < x1 <= w && ch in {Red, Green, Blue}
    requires forall y, x :: y0 <= y < y1 && x0 <= x < x1 && px[y][x].a > 0 ==> lo <= Colour(px[y][x], ch) <= hi
    requires BoxSum(px, w, h, y0, y1, x0, x1, Alpha) > 0
    ensures lo <= Colour(Average(px, w, h, y0, y1, x0, x1), ch) <= hi
  {
    forall y, x | y0 <= y < y1 && x0 <= x < x1 ensures Between(px[y][x], lo, hi, ch, Alpha) {
      var p := px[y][x];
      if p.a > 0 {
        Scale(lo, Colour(p, ch), p.a);
        Scale(Colour(p, ch), hi, p.a);
      }
    }
    BoxBetween(px, w, h, y0, y1, x0, x1, lo, hi, ch, Alpha);
    QuotientBetween(lo, hi, BoxSum(px, w, h, y0, y1, x0, x1, ch), BoxSum(px, w, h, y0, y1, x0, x1, Alpha));
  }

  lemma AlphaIsBetween(px: seq<seq<Pixel>>, w: nat, h: nat, y0: nat, y1: nat, x0: nat, x1: nat, lo: nat, hi: nat)
    requires IsImage(px, w, h) && y0 < y1 <= h && x0 < x1 <= w
    requires forall y, x :: y0 <= y < y1 && x0 <= x < x1 ==> lo <= px[y][x].a <= hi
    ensures lo <= Average(px, w, h, y0, y1, x0, x1).a <= hi
  {
    BoxBetween(px, w, h, y0, y1, x0, x1, lo, hi, Alpha, Unit);
    SumsBound(px, w, h, y0, y1, x0, x1);
    QuotientBetween(lo, hi, BoxSum(px, w, h, y0, y1, x0, x1, Alpha), BoxSum(px, w, h, y0, y1, x0, x1, Unit));
  }

  /** Same alpha everywhere, same colour wherever anything shows. */
  ghost predicate LooksLike(p: Pixel, q: Pixel) {
    p.a == q.a && (p.a > 0 ==> p == q)
  }

  lemma SameParts(p: Pixel, q: Pixel, ch: Channel)
    requires LooksLike(p, q)
    ensures Part(p, ch) == Part(q, ch)
  {
  }

  lemma {:induction false} SameRows(row: seq<Pixel>, qow: seq<Pixel>, x0: nat, x1: nat, ch: Channel)
    requires x1 <= |row| == |qow| && forall x :: 0 <= x < |row| ==> LooksLike(row[x], qow[x])
    ensures RowSum(row, x0, x1, ch) == RowSum(qow, x0, x1, ch)
  {
    if x0 < x1 {
      SameRows(row, qow, x0, x1 - 1, ch);
      SameParts(row[x1 - 1], qow[x1 - 1], ch);
    }
  }

  lemma {:induction false} SameBoxes(px: seq<seq<Pixel>>, qx: seq<seq<Pixel>>, w: nat, h: nat, y0: nat, y1: nat,
                                     x0: nat, x1: nat, ch: Channel)
    requires IsImage(px, w, h) && IsImage(qx, w, h) && y1 <= h && x1 <= w
    requires forall y, x :: 0 <= y < h && 0 <= x < w ==> LooksLike(px[y][x], qx[y][x])
    ensures BoxSum(px, w, h, y0, y1, x0, x1, ch) == BoxSum(qx, w, h, y0, y1, x0, x1, ch)
  {
    if y0 < y1 {
      SameBoxes(px, qx, w, h, y0, y1 - 1, x0, x1, ch);
      SameRows(px[y1 - 1], qx[y1 - 1], x0, x1, ch);
    }
  }

  /** The colour stored in a fully transparent pixel has no influence. */
  lemma TransparentHasNoInfluence(px: seq<seq<Pixel>>, qx: seq<seq<Pixel>>, w: nat, h: nat,
                                  y0: nat, y1: nat, x0: nat, x1: nat)
    requires IsImage(px, w, h) && IsImage(qx, w, h) && y0 < y1 <= h && x0 < x1 <= w
    requires forall y, x :: 0 <= y < h && 0 <= x < w ==> LooksLike(px[y][x], qx[y][x])
    ensures Average(px, w, h, y0, y1, x0, x1) == Average(qx, w, h, y0, y1, x0, x1)
  {
    SameBoxes(px, qx, w, h, y0, y1, x0, x1, Red);
    SameBoxes(px, qx, w, h, y0, y1, x0, x1, Green);
    SameBoxes(px, qx, w, h, y0, y1, x0, x1, Blue);
    SameBoxes(px, qx, w, h, y0, y1, x0, x1, Alpha);
    SameBoxes(px, qx, w, h, y0, y1, x0, x1, Unit);
  }

  /** A box of one visible colour averages to that colour. */
  lemma UniformStays(px: seq<seq<Pixel>>, w: nat, h: nat, y0: nat, y1: nat, x0: nat, x1: nat, p: Pixel)
    requires IsImage(px, w, h) && y0 < y1 <= h && x0 < x1 <= w && p.a > 0
    requires forall y, x :: y0 <= y < y1 && x0 <= x < x1 ==> px[y][x] == p
    ensures Average(px, w, h, y0, y1, x0, x1) == p
  {
    AlphaIsBetween(px, w, h, y0, y1, x0, x1, p.a, p.a);
    BoxBetween(px, w, h, y0, y1, x0, x1, 1, p.a, Alpha, Unit);
    SumsBound(px, w, h, y0, y1, x0, x1);
    ColourIsBetween(px, w, h, y0, y1, x0, x1, Red, p.r, p.r);
    ColourIsBetween(px, w, h, y0, y1, x0, x1, Green, p.g, p.g);
    ColourIsBetween(px, w, h, y0, y1, x0, x1, Blue, p.b, p.b);
  }
}
