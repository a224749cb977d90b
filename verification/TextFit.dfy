// How much text fits on a line of a frame, and the font for it (internals/ffmpeg/textfit.go).
// Floats are exact reals here; int(...) of a non-negative float is its floor.
module TextFit {
  import opened Basics

  const CHAR_WIDTH := 0.62
  const FIT_CORNER := 0.90
  const FIT_TILED := 0.30
  const MIN_SCALE := 0.6
  const ABS_MIN_PX := 6
  const BOX_BORDER_PX := 8
  const FALLBACK_FRAME_WIDTH := 1280

  datatype Fit = Fit(basePx: int, minPx: int, availPx: int)

  function Clamp(v: int, lo: int, hi: int): int {
    if v < lo then lo else if v > hi then hi else v
  }

  /** The share of the frame width one line may use. */
  function Share(pos: string): real {
    if pos == "tiled" then FIT_TILED else FIT_CORNER
  }

  function Width(frameW: int): int {
    if frameW <= 0 then FALLBACK_FRAME_WIDTH else frameW
  }

  function FitText(frameW: int, pos: string, basePx: int): (f: Fit)
    ensures f.basePx == basePx && f.minPx >= ABS_MIN_PX && f.availPx >= 1
    // minPx is the largest size within MinScale of the normal one, or the absolute floor
    ensures basePx as real * MIN_SCALE < (f.minPx + 1) as real
    ensures f.minPx > ABS_MIN_PX ==> f.minPx as real <= basePx as real * MIN_SCALE
    // availPx is the largest width that leaves room for both borders in the share, or one pixel
    ensures Share(pos) * Width(frameW) as real < (f.availPx + 2 * BOX_BORDER_PX + 1) as real
    ensures f.availPx > 1 ==> (f.availPx + 2 * BOX_BORDER_PX) as real <= Share(pos) * Width(frameW) as real
  {
    Fit(basePx, Max(ABS_MIN_PX, (basePx as real * MIN_SCALE).Floor),
        Max(1, (Width(frameW) as real * Share(pos)).Floor - 2 * BOX_BORDER_PX))
  }

  /** How many n's - characters of n px, or px for n characters - fit into avail. */
  function Ratio(avail: int, n: int): int
    requires n >= 1
  {
    (avail as real / (CHAR_WIDTH * n as real)).Floor
  }

  function Budget(f: Fit): (n: int)
    requires f.minPx >= 1
    ensures n >= 1
  {
    Max(1, Ratio(f.availPx, f.minPx))
  }

  function FontPx(f: Fit, n: int): int {
    if n <= 0 then f.basePx else Clamp(Ratio(f.availPx, n), ABS_MIN_PX, f.basePx)
  }

  /** k n-wide things fit exactly when k n-tall ones do: both say CharWidth * k * n <= avail. */
  lemma AtMostRatio(k: int, avail: int, n: int)
    requires n >= 1
    ensures k <= Ratio(avail, n) <==> CHAR_WIDTH * (k as real) * (n as real) <= avail as real
  {
    var w := CHAR_WIDTH * n as real;
    var q := avail as real / w;
    assert q * w == avail as real;
    assert k <= q.Floor <==> k as real <= q;
    assert k as real <= q <==> k as real * w <= q * w;
  }

  /** Budget and FontPx are adjoint: n characters are within the budget exactly when the font for
      them stays at MinPx or above. */
  lemma BudgetFontAdjoint(f: Fit, n: int)
    requires n >= 1 && f.minPx >= 1 && f.availPx as real >= CHAR_WIDTH * f.minPx as real
    ensures n <= Budget(f) <==> Ratio(f.availPx, n) >= f.minPx
  {
    AtMostRatio(n, f.availPx, f.minPx);
    AtMostRatio(f.minPx, f.availPx, n);
    AtMostRatio(1, f.availPx, f.minPx);
  }

  /** The budget is the largest number of characters that fit at MinPx, or one. */
  lemma BudgetIsLargest(f: Fit, n: int)
    requires f.minPx >= 1 && n >= 1
    ensures n <= Budget(f) <==> n == 1 || 0.62 * (n as real) * (f.minPx as real) <= f.availPx as real
  {
    AtMostRatio(n, f.availPx, f.minPx);
  }

  /** The font is the largest whole size, up to the normal one, at which the line fits - or 6. */
  lemma FontIsLargest(f: Fit, n: int, k: int)
    requires n >= 1 && f.basePx >= 6 && 6 < k <= f.basePx
    ensures k <= FontPx(f, n) <==> 0.62 * (k as real) * (n as real) <= f.availPx as real
  {
    AtMostRatio(k, f.availPx, n);
  }

  /** An empty line has the normal size. */
  lemma EmptyLineFont(f: Fit, n: int)
    requires n <= 0
    ensures FontPx(f, n) == f.basePx
  {
  }

  /** A tiled line may use 30 percent of the frame, any other 90; an unknown frame counts as 1280 px. */
  lemma ShareOfFrame(frameW: int, pos: string)
    ensures pos == "tiled" ==> Share(pos) == 0.3
    ensures pos != "tiled" ==> Share(pos) == 0.9
    ensures frameW > 0 ==> Width(frameW) == frameW
    ensures frameW <= 0 ==> Width(frameW) == 1280
  {
  }

  /** MinPx is the largest size up to six tenths of the normal one, and AvailPx the largest width that
      leaves 8 px free at both ends of the share - but at least 6 and 1. */
  lemma RoomInNumbers(frameW: int, pos: string, basePx: int, k: int)
    ensures var f := FitText(frameW, pos, basePx);
      && f.minPx >= 6 && (k > 6 ==> (k <= f.minPx <==> k as real <= 0.6 * basePx as real))
      && f.availPx >= 1 && (k > 1 ==> (k <= f.availPx <==> (k + 16) as real <= Share(pos) * Width(frameW) as real))
  {
  }

  /** More text never gets a larger font, and the font stays within [6, BasePx]. */
  lemma FontIsAntitone(f: Fit, n: int, m: int)
    requires f.basePx >= ABS_MIN_PX && n <= m
    requires f.availPx >= 0
    ensures ABS_MIN_PX <= FontPx(f, m) <= FontPx(f, n) <= f.basePx
  {
    if n >= 1 {
      var k := Ratio(f.availPx, m);
      AtMostRatio(k, f.availPx, m);
      AtMostRatio(k, f.availPx, n);
      AtMostRatio(0, f.availPx, m);
      assert CHAR_WIDTH * k as real * n as real <= CHAR_WIDTH * k as real * m as real by {
        assert CHAR_WIDTH * k as real >= 0.0;
      }
    }
  }

  /** While the font is above its floor, the line and both borders are within the allowed share of
      the frame - if the frame is wide enough that AvailPx was not forced to 1. */
  lemma LineIsWithinShare(frameW: int, pos: string, basePx: int, n: int)
    requires n >= 1 && (Width(frameW) as real * Share(pos)).Floor - 2 * BOX_BORDER_PX >= 1
    ensures var f := FitText(frameW, pos, basePx);
      FontPx(f, n) > ABS_MIN_PX ==>
        CHAR_WIDTH * FontPx(f, n) as real * n as real + (2 * BOX_BORDER_PX) as real
        <= Share(pos) * Width(frameW) as real
  {
    var f := FitText(frameW, pos, basePx);
    AtMostRatio(FontPx(f, n), f.availPx, n);
  }

  /** Text within the budget keeps at least MinPx, or the normal size where that is smaller. */
  lemma WithinBudgetKeepsMinPx(f: Fit, n: int)
    requires n >= 1 && f.minPx >= ABS_MIN_PX && f.availPx as real >= CHAR_WIDTH * f.minPx as real
    requires n <= Budget(f)
    ensures FontPx(f, n) >= if f.basePx < f.minPx then f.basePx else f.minPx
  {
    BudgetFontAdjoint(f, n);
  }
}
