// The logo box filter itself: four nested loops over the source picture, with uint64 sums and
// uint8 results (downscale in internals/app/brand/service.go).
module Downscale {
  import opened Basics
  import opened BoxFilter

  /** The cap SetLogo puts on a decoded picture. */
  const MAX_LOGO_PIXELS := 4_000_000

  function U64(x: nat): nat {
    x % 0x1_0000_0000_0000_0000
  }

  function U8(x: int): Byte {
    x % 256
  }

  /** The accumulators of one box. */
  datatype Totals = Totals(r: nat, g: nat, b: nat, a: nat, n: nat)

  const NOTHING := Totals(0, 0, 0, 0, 0)

  /** One pixel more, in uint64 arithmetic. */
  function Add(t: Totals, p: Pixel): Totals {
    Totals(U64(t.r + U64(Part(p, Red))), U64(t.g + U64(Part(p, Green))), U64(t.b + U64(Part(p, Blue))),
           U64(t.a + U64(Part(p, Alpha))), U64(t.n + 1))
  }

  function Exactly(t: Totals, p: Pixel): Totals {
    Totals(t.r + Part(p, Red), t.g + Part(p, Green), t.b + Part(p, Blue), t.a + Part(p, Alpha), t.n + 1)
  }

  /** n pixels add at most 255 * 255 each. */
  predicate Small(t: Totals) {
    t.r <= 65025 * t.n && t.g <= 65025 * t.n && t.b <= 65025 * t.n && t.a <= 65025 * t.n
  }

  lemma NoWrap(sum: nat, n: nat, x: nat)
    requires sum <= 65025 * n && n < MAX_LOGO_PIXELS && x <= 65025
    ensures U64(sum + U64(x)) == sum + x <= 65025 * (n + 1)
  {
  }

  lemma PartFits(p: Pixel, ch: Channel)
    ensures Part(p, ch) <= 65025
  {
    Scale(Colour(p, ch), 255, p.a);
  }

  /** Under the pixel cap nothing wraps. */
  lemma SumsNeverWrap(t: Totals, p: Pixel)
    requires Small(t) && t.n < MAX_LOGO_PIXELS
    ensures Add(t, p) == Exactly(t, p) && Small(Exactly(t, p))
  {
    hide U64, Part;
    PartFits(p, Red);
    PartFits(p, Green);
    PartFits(p, Blue);
    PartFits(p, Alpha);
    NoWrap(t.r, t.n, Part(p, Red));
    NoWrap(t.g, t.n, Part(p, Green));
    NoWrap(t.b, t.n, Part(p, Blue));
    NoWrap(t.a, t.n, Part(p, Alpha));
    CountsFit(t.n + 1);
  }

  lemma CountsFit(x: nat)
    requires x < 0x1_0000_0000_0000_0000
    ensures U64(x) == x
  {
  }

  ghost function Rows(img: array2<Pixel>): (px: seq<seq<Pixel>>)
    reads img
    ensures IsImage(px, img.Length1, img.Length0)
    ensures forall y, x :: 0 <= y < img.Length0 && 0 <= x < img.Length1 ==> px[y][x] == img[y, x]
  {
    seq(img.Length0, y requires 0 <= y < img.Length0 reads img =>
      seq(img.Length1, x requires 0 <= x < img.Length1 reads img => img[y, x]))
  }

  ghost function RowTotals(row: seq<Pixel>, x0: nat, x1: nat): Totals
    requires x0 <= x1 <= |row|
  {
    Totals(RowSum(row, x0, x1, Red), RowSum(row, x0, x1, Green), RowSum(row, x0, x1, Blue),
        RowSum(row, x0, x1, Alpha), x1 - x0)
  }

  ghost function BoxTotals(px: seq<seq<Pixel>>, w: nat, h: nat, y0: nat, y1: nat, x0: nat, x1: nat): Totals
    requires IsImage(px, w, h) && y0 <= y1 <= h && x0 <= x1 <= w
  {
    Totals(BoxSum(px, w, h, y0, y1, x0, x1, Red), BoxSum(px, w, h, y0, y1, x0, x1, Green),
           BoxSum(px, w, h, y0, y1, x0, x1, Blue), BoxSum(px, w, h, y0, y1, x0, x1, Alpha),
           BoxSum(px, w, h, y0, y1, x0, x1, Unit))
  }

  function Plus(t: Totals, u: Totals): Totals {
    Totals(t.r + u.r, t.g + u.g, t.b + u.b, t.a + u.a, t.n + u.n)
  }

  lemma OnePixelMore(above: Totals, row: seq<Pixel>, x0: nat, sx: nat)
    requires x0 <= sx < |row|
    ensures Exactly(Plus(above, RowTotals(row, x0, sx)), row[sx]) == Plus(above, RowTotals(row, x0, sx + 1))
  {
    hide Part;
  }

  lemma OneRowMore(px: seq<seq<Pixel>>, w: nat, h: nat, y0: nat, sy: nat, x0: nat, x1: nat)
    requires IsImage(px, w, h) && y0 <= sy < h && x0 <= x1 <= w
    ensures Plus(BoxTotals(px, w, h, y0, sy, x0, x1), RowTotals(px[sy], x0, x1)) ==
        BoxTotals(px, w, h, y0, sy + 1, x0, x1)
  {
    UnitRow(px[sy], x0, x1);
    BoxSumGrows(px, w, h, y0, sy, x0, x1, Red);
    BoxSumGrows(px, w, h, y0, sy, x0, x1, Green);
    BoxSumGrows(px, w, h, y0, sy, x0, x1, Blue);
    BoxSumGrows(px, w, h, y0, sy, x0, x1, Alpha);
    BoxSumGrows(px, w, h, y0, sy, x0, x1, Unit);
    hide BoxSum, RowSum;
  }

  lemma BoxSumGrows(px: seq<seq<Pixel>>, w: nat, h: nat, y0: nat, sy: nat, x0: nat, x1: nat, ch: Channel)
    requires IsImage(px, w, h) && y0 <= sy < h && x1 <= w
    ensures BoxSum(px, w, h, y0, sy + 1, x0, x1, ch) ==
        BoxSum(px, w, h, y0, sy, x0, x1, ch) + RowSum(px[sy], x0, x1, ch)
  {
    hide RowSum;
  }

  /** Rows above sy are done, and row sy as far as sx: less than the whole picture. */
  lemma CountInPicture(w: nat, h: nat, y0: nat, sy: nat, x0: nat, sx: nat, x1: nat)
    requires y0 <= sy < h && x0 <= sx < x1 <= w
    ensures (sy - y0) * (x1 - x0) + (sx - x0) < w * h
  {
    var rows, width := sy - y0, x1 - x0;
    assert (rows + 1) * width == rows * width + width;
    Scale(rows + 1, h, width);
    Scale(width, w, h);
  }

  function Mean(t: Totals): Pixel
    requires t.n > 0
  {
    if t.a > 0 then Pixel(U8(t.r / t.a), U8(t.g / t.a), U8(t.b / t.a), U8(t.a / t.n)) else Pixel(0, 0, 0, U8(t.a / t.n))
  }

  lemma MeanIsAverage(px: seq<seq<Pixel>>, w: nat, h: nat, y0: nat, y1: nat, x0: nat, x1: nat)
    requires IsImage(px, w, h) && y0 < y1 <= h && x0 < x1 <= w
    ensures var t := BoxTotals(px, w, h, y0, y1, x0, x1);
      t.n > 0 && Mean(t) == Average(px, w, h, y0, y1, x0, x1)
  {
    SumsBound(px, w, h, y0, y1, x0, x1);
    hide BoxSum;
  }

  /** The two inner loops: the averaged pixel of one box. */
  method AverageBox(img: array2<Pixel>, y0: nat, y1: nat, x0: nat, x1: nat) returns (p: Pixel)
    requires y0 < y1 <= img.Length0 && x0 < x1 <= img.Length1
    requires img.Length1 * img.Length0 <= MAX_LOGO_PIXELS
    ensures p == Average(Rows(img), img.Length1, img.Length0, y0, y1, x0, x1)
  {
    ghost var px, w, h := Rows(img), img.Length1, img.Length0;
    var t := NOTHING;
    assert t == BoxTotals(px, w, h, y0, y0, x0, x1);
    for sy := y0 to y1
      invariant t == BoxTotals(px, w, h, y0, sy, x0, x1) && Small(t) && t.n == (sy - y0) * (x1 - x0)
    {
      ghost var above := t;
      assert t == Plus(above, RowTotals(px[sy], x0, x0));
      for sx := x0 to x1
        invariant t == Plus(above, RowTotals(px[sy], x0, sx)) && Small(t)
      {
        hide BoxSum, RowSum, Small, Add, Exactly;
        CountInPicture(w, h, y0, sy, x0, sx, x1);
        SumsNeverWrap(t, img[sy, sx]);
        OnePixelMore(above, px[sy], x0, sx);
        t := Add(t, img[sy, sx]);
      }
      OneRowMore(px, w, h, y0, sy, x0, x1);
      UnitBox(px, w, h, y0, sy + 1, x0, x1);
    }
    MeanIsAverage(px, w, h, y0, y1, x0, x1);
    p := Pixel(0, 0, 0, U8(t.a / t.n));
    if t.a > 0 {
      p := p.(r := U8(t.r / t.a), g := U8(t.g / t.a), b := U8(t.b / t.a));
    }
  }

  /** The destination pixel at (x, y) averages the box of source pixels it covers. */
  ghost function BoxAt(px: seq<seq<Pixel>>, w: nat, h: nat, nw: nat, nh: nat, y: nat, x: nat): Pixel
    requires IsImage(px, w, h) && 0 < nw <= w && 0 < nh <= h && y < nh && x < nw
  {
    BoxesPartition(w, nw);
    BoxesPartition(h, nh);
    Average(px, w, h, Lo(y, h, nh), Hi(y, h, nh), Lo(x, w, nw), Hi(x, w, nw))
  }

  // --- what a destination pixel is made of --------------------------------------------------------------

  /** Source pixel (v, u) is in the box of destination pixel (y, x). */
  ghost predicate Feeds(v: nat, u: nat, w: nat, h: nat, nw: nat, nh: nat, y: nat, x: nat)
    requires nw > 0 && nh > 0
  {
    InBox(v, y, h, nh) && InBox(u, x, w, nw)
  }

  /** The box of destination pixel (y, x) shows p and nothing else. */
  ghost predicate OneColour(px: seq<seq<Pixel>>, w: nat, h: nat, nw: nat, nh: nat, y: nat, x: nat, p: Pixel)
    requires IsImage(px, w, h) && nw > 0 && nh > 0
  {
    p.a > 0 && forall v, u :: 0 <= v < h && 0 <= u < w && Feeds(v, u, w, h, nw, nh, y, x) ==> px[v][u] == p
  }

  lemma UniformBoxes(px: seq<seq<Pixel>>, w: nat, h: nat, nw: nat, nh: nat)
    requires IsImage(px, w, h) && 0 < nw <= w && 0 < nh <= h
    ensures forall y, x, p :: 0 <= y < nh && 0 <= x < nw && OneColour(px, w, h, nw, nh, y, x, p) ==>
              BoxAt(px, w, h, nw, nh, y, x) == p
  {
    hide OneColour, BoxAt;
    forall y, x, p | 0 <= y < nh && 0 <= x < nw && OneColour(px, w, h, nw, nh, y, x, p)
      ensures BoxAt(px, w, h, nw, nh, y, x) == p
    {
      UniformBoxStays(px, w, h, nw, nh, y, x, p);
    }
  }

  /** If all pixels of its box are one visible colour, so is the destination pixel. */
  lemma UniformBoxStays(px: seq<seq<Pixel>>, w: nat, h: nat, nw: nat, nh: nat, y: nat, x: nat, p: Pixel)
    requires IsImage(px, w, h) && 0 < nw <= w && 0 < nh <= h && y < nh && x < nw
    requires OneColour(px, w, h, nw, nh, y, x, p)
    ensures BoxAt(px, w, h, nw, nh, y, x) == p
  {
    hide Average;
    BoxesPartition(w, nw);
    BoxesPartition(h, nh);
    forall v, u | Lo(y, h, nh) <= v < Hi(y, h, nh) && Lo(x, w, nw) <= u < Hi(x, w, nw) ensures px[v][u] == p {
      assert Feeds(v, u, w, h, nw, nh, y, x);
    }
    UniformStays(px, w, h, Lo(y, h, nh), Hi(y, h, nh), Lo(x, w, nw), Hi(x, w, nw), p);
  }

  /** Each colour of the destination pixel lies between the least and the greatest of the visible
      pixels of its box, and its alpha between those of all of them. */
  lemma BoxPixelIsBetween(px: seq<seq<Pixel>>, w: nat, h: nat, nw: nat, nh: nat, y: nat, x: nat,
                          ch: Channel, lo: nat, hi: nat)
    requires IsImage(px, w, h) && 0 < nw <= w && 0 < nh <= h && y < nh && x < nw && ch in {Red, Green, Blue, Alpha}
    requires forall v, u ::
      0 <= v < h && 0 <= u < w && Feeds(v, u, w, h, nw, nh, y, x) && (ch == Alpha || px[v][u].a > 0) ==>
        lo <= Colour(px[v][u], ch) <= hi
    requires exists v, u :: 0 <= v < h && 0 <= u < w && Feeds(v, u, w, h, nw, nh, y, x) && px[v][u].a > 0
    ensures lo <= Colour(BoxAt(px, w, h, nw, nh, y, x), ch) <= hi
  {
    hide Average, BoxSum;
    BoxesPartition(w, nw);
    BoxesPartition(h, nh);
    var y0, y1, x0, x1 := Lo(y, h, nh), Hi(y, h, nh), Lo(x, w, nw), Hi(x, w, nw);
    forall v, u | y0 <= v < y1 && x0 <= u < x1 ensures Feeds(v, u, w, h, nw, nh, y, x) {
    }
    hide Lo, Hi;
    if ch == Alpha {
      AlphaIsBetween(px, w, h, y0, y1, x0, x1, lo, hi);
    } else {
      var v, u :| 0 <= v < h && 0 <= u < w && Feeds(v, u, w, h, nw, nh, y, x) && px[v][u].a > 0;
      VisibleSum(px, w, h, y0, y1, x0, x1, v, u);
      ColourIsBetween(px, w, h, y0, y1, x0, x1, ch, lo, hi);
    }
  }

  /** A box with a visible pixel has a positive sum of alphas. */
  lemma VisibleSum(px: seq<seq<Pixel>>, w: nat, h: nat, y0: nat, y1: nat, x0: nat, x1: nat, v: nat, u: nat)
    requires IsImage(px, w, h) && y0 <= v < y1 <= h && x0 <= u < x1 <= w && px[v][u].a > 0
    ensures BoxSum(px, w, h, y0, y1, x0, x1, Alpha) > 0
  {
    CutByRow(px, w, h, y0, v, y1, x0, x1, Alpha);
    CutByRow(px, w, h, v, v + 1, y1, x0, x1, Alpha);
    CutByColumn(px, w, h, v, v + 1, x0, u, x1, Alpha);
    CutByColumn(px, w, h, v, v + 1, u, u + 1, x1, Alpha);
    OnePixelBox(px, w, h, v, u, Alpha);
  }

  /** Nothing outside its box has any influence on a destination pixel. */
  lemma OnlyItsBoxCounts(px: seq<seq<Pixel>>, qx: seq<seq<Pixel>>, w: nat, h: nat, nw: nat, nh: nat, y: nat, x: nat)
    requires IsImage(px, w, h) && IsImage(qx, w, h) && 0 < nw <= w && 0 < nh <= h && y < nh && x < nw
    requires forall v, u :: 0 <= v < h && 0 <= u < w && Feeds(v, u, w, h, nw, nh, y, x) ==> px[v][u] == qx[v][u]
    ensures BoxAt(px, w, h, nw, nh, y, x) == BoxAt(qx, w, h, nw, nh, y, x)
  {
    hide BoxSum;
    BoxesPartition(w, nw);
    BoxesPartition(h, nh);
    var y0, y1, x0, x1 := Lo(y, h, nh), Hi(y, h, nh), Lo(x, w, nw), Hi(x, w, nw);
    forall v, u | y0 <= v < y1 && x0 <= u < x1 ensures px[v][u] == qx[v][u] {
      assert Feeds(v, u, w, h, nw, nh, y, x);
    }
    hide Lo, Hi;
    forall ch ensures BoxSum(px, w, h, y0, y1, x0, x1, ch) == BoxSum(qx, w, h, y0, y1, x0, x1, ch) {
      SameInBox(px, qx, w, h, y0, y1, x0, x1, ch);
    }
  }

  lemma {:induction false} SameInRow(row: seq<Pixel>, qow: seq<Pixel>, x0: nat, x1: nat, ch: Channel)
    requires x1 <= |row| == |qow| && forall x :: x0 <= x < x1 ==> row[x] == qow[x]
    ensures RowSum(row, x0, x1, ch) == RowSum(qow, x0, x1, ch)
  {
    if x0 < x1 {
      SameInRow(row, qow, x0, x1 - 1, ch);
    }
  }

  lemma {:induction false} SameInBox(px: seq<seq<Pixel>>, qx: seq<seq<Pixel>>, w: nat, h: nat, y0: nat, y1: nat,
                                     x0: nat, x1: nat, ch: Channel)
    requires IsImage(px, w, h) && IsImage(qx, w, h) && y1 <= h && x1 <= w
    requires forall v, u :: y0 <= v < y1 && x0 <= u < x1 ==> px[v][u] == qx[v][u]
    ensures BoxSum(px, w, h, y0, y1, x0, x1, ch) == BoxSum(qx, w, h, y0, y1, x0, x1, ch)
  {
    if y0 < y1 {
      SameInBox(px, qx, w, h, y0, y1 - 1, x0, x1, ch);
      SameInRow(px[y1 - 1], qx[y1 - 1], x0, x1, ch);
    }
  }

  /** Every source pixel is in the box of exactly one destination pixel. */
  lemma EveryPixelIsReadOnce(w: nat, h: nat, nw: nat, nh: nat, sy: nat, sx: nat)
    requires 0 < nw <= w && 0 < nh <= h && sy < h && sx < w
    ensures exists y: nat, x: nat :: y < nh && x < nw && InBox(sy, y, h, nh) && InBox(sx, x, w, nw)
    ensures forall y: nat, x: nat, v: nat, u: nat ::
              InBox(sy, y, h, nh) && InBox(sx, x, w, nw) && InBox(sy, v, h, nh) && InBox(sx, u, w, nw) ==>
                  y == v && x == u
  {
    hide InBox;
    BoxesPartition(w, nw);
    BoxesPartition(h, nh);
    assert Covered(sy, h, nh) && Covered(sx, w, nw);
  }

  /** A picture of one visible colour stays that colour. */
  lemma UniformPictureStays(px: seq<seq<Pixel>>, w: nat, h: nat, nw: nat, nh: nat, p: Pixel, y: nat, x: nat)
    requires IsImage(px, w, h) && 0 < nw <= w && 0 < nh <= h && y < nh && x < nw && p.a > 0
    requires forall v, u :: 0 <= v < h && 0 <= u < w ==> px[v][u] == p
    ensures BoxAt(px, w, h, nw, nh, y, x) == p
  {
    hide Average;
    BoxesPartition(w, nw);
    BoxesPartition(h, nh);
    UniformStays(px, w, h, Lo(y, h, nh), Hi(y, h, nh), Lo(x, w, nw), Hi(x, w, nw), p);
  }

  /** Every destination pixel is the average of its box; a small picture is returned as it is. */
  method Downscale(img: array2<Pixel>, maxDim: nat) returns (dst: array2<Pixel>)
    requires img.Length0 >= 1 && img.Length1 >= 1 && maxDim >= 1
    requires img.Length1 * img.Length0 <= MAX_LOGO_PIXELS
    ensures img.Length1 <= maxDim && img.Length0 <= maxDim ==> dst == img
    ensures img.Length1 > maxDim || img.Length0 > maxDim ==>
      var (nw, nh) := NewSize(img.Length1, img.Length0, maxDim);
      && fresh(dst) && dst.Length1 == nw <= img.Length1 && dst.Length0 == nh <= img.Length0 && Max(nw, nh) == maxDim
          && nw > 0 && nh > 0
      && forall y, x :: 0 <= y < nh && 0 <= x < nw ==>
           dst[y, x] == BoxAt(Rows(img), img.Length1, img.Length0, nw, nh, y, x)
    // a destination pixel whose box is all of one visible colour has that colour
    ensures img.Length1 > maxDim || img.Length0 > maxDim ==>
      var (nw, nh) := NewSize(img.Length1, img.Length0, maxDim);
      forall y, x, p ::
        0 <= y < nh && 0 <= x < nw && OneColour(Rows(img), img.Length1, img.Length0, nw, nh, y, x, p) ==>
          dst[y, x] == p
  {
    var w, h := img.Length1, img.Length0;
    if w <= maxDim && h <= maxDim {
      return img;
    }
    LongestSideIsMaxDim(w, h, maxDim);
    var (nw, nh) := NewSize(w, h, maxDim);
    BoxesPartition(w, nw);
    BoxesPartition(h, nh);
    UniformBoxes(Rows(img), w, h, nw, nh);
    dst := new Pixel[nh, nw];
    for y := 0 to nh
      invariant forall v, x :: 0 <= v < y && 0 <= x < nw ==> dst[v, x] == BoxAt(Rows(img), w, h, nw, nh, v, x)
    {
      var y0, y1 := Lo(y, h, nh), Hi(y, h, nh);
      for x := 0 to nw
        invariant forall v, u :: 0 <= v < y && 0 <= u < nw ==> dst[v, u] == BoxAt(Rows(img), w, h, nw, nh, v, u)
        invariant forall u :: 0 <= u < x ==> dst[y, u] == BoxAt(Rows(img), w, h, nw, nh, y, u)
      {
        var p := AverageBox(img, y0, y1, Lo(x, w, nw), Hi(x, w, nw));
        dst[y, x] := p;
      }
    }
  }
}
