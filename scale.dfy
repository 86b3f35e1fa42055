/**
 * The unit/scale model: every size on a page is a baseline size for an 11 x 14 inch
 * page multiplied by one scale factor, the mean of the width and height ratios.
 */
module Scale {

  /** Points per inch in the PDF coordinate system. */
  const Inch: real := 72.0
  const BaselineWidth: real := 11.0
  const BaselineHeight: real := 14.0

  /** A page size in inches. */
  datatype Page = Page(widthIn: real, heightIn: real)

  /** The sizes the page-size inputs accept: 1 to 50 inches on each side. */
  predicate AdmissiblePage(p: Page) {
    1.0 <= p.widthIn <= 50.0 && 1.0 <= p.heightIn <= 50.0
  }

  /** The five sizes offered when every standard size is generated. */
  const StandardSizes: seq<Page> :=
    [Page(11.0, 14.0), Page(16.0, 20.0), Page(18.0, 24.0), Page(24.0, 36.0), Page(33.1, 46.8)]

  /** `(w / 11 + h / 14) / 2`: the average of the two axis ratios. */
  function ScaleFactor(p: Page): (s: real)
    ensures AdmissiblePage(p) ==> 0.0 < s
  {
    (p.widthIn / BaselineWidth + p.heightIn / BaselineHeight) / 2.0
  }

  /** Python's `int(x)` on a float: truncation toward zero. */
  function Trunc(x: real): (n: int)
    ensures 0.0 <= x ==> 0 <= n && n as real <= x < n as real + 1.0
    ensures x < 0.0 ==> n <= 0 && x <= n as real < x + 1.0
  {
    if 0.0 <= x then x.Floor else -((-x).Floor)
  }

  /** `int(k * scale)`: a baseline size `k` on a page of scale `s`. */
  function Scaled(k: real, s: real): int {
    Trunc(k * s)
  }

  /** `1.5 * scale * inch`, the same on all four sides. */
  function Margin(p: Page): (m: real)
    ensures AdmissiblePage(p) ==> 0.0 < m
    ensures 2.0 * m == 3.0 * Inch * ScaleFactor(p)
  {
    1.5 * ScaleFactor(p) * Inch
  }

  function PageWidthPt(p: Page): real {
    p.widthIn * Inch
  }

  function PageHeightPt(p: Page): real {
    p.heightIn * Inch
  }

  /**
   * The frame width: the page width less both margins (also the separator line's length).
   * It is positive exactly when the page is not too tall for its width: `266 w > 33 h`.
   */
  function ContentWidth(p: Page): (c: real)
    ensures AdmissiblePage(p) ==> c < PageWidthPt(p)
    ensures 0.0 < c <==> 33.0 * p.heightIn < 266.0 * p.widthIn
  {
    PageWidthPt(p) - 2.0 * Margin(p)
  }

  /**
   * The frame height: the page height less both margins. It is positive exactly when the
   * page is not too wide for its height: `275 h > 42 w`.
   */
  function ContentHeight(p: Page): (c: real)
    ensures AdmissiblePage(p) ==> c < PageHeightPt(p)
    ensures 0.0 < c <==> 42.0 * p.widthIn < 275.0 * p.heightIn
  {
    PageHeightPt(p) - 2.0 * Margin(p)
  }

  /** On the 11:14 ratio both axis ratios agree and the scale is that ratio. */
  lemma ScaleOnBaselineRatio(p: Page)
    requires p.widthIn / BaselineWidth == p.heightIn / BaselineHeight
    ensures ScaleFactor(p) == p.widthIn / BaselineWidth == p.heightIn / BaselineHeight
  {
  }

  /** Off the 11:14 ratio the scale lies strictly between the two axis ratios. */
  lemma ScaleBetweenAxisRatios(p: Page)
    requires p.widthIn / BaselineWidth != p.heightIn / BaselineHeight
    ensures var w, h := p.widthIn / BaselineWidth, p.heightIn / BaselineHeight;
      (w < ScaleFactor(p) < h) || (h < ScaleFactor(p) < w)
  {
  }

  /** Enlarging both sides by `k` enlarges the scale, the margin and the frame by `k`. */
  lemma {:induction false} ScaleProportional(p: Page, k: real)
    requires 0.0 < k
    ensures var q := Page(k * p.widthIn, k * p.heightIn);
      ScaleFactor(q) == k * ScaleFactor(p)
      && Margin(q) == k * Margin(p)
      && ContentWidth(q) == k * ContentWidth(p)
      && ContentHeight(q) == k * ContentHeight(p)
  {
    var q := Page(k * p.widthIn, k * p.heightIn);
    calc {
      ScaleFactor(q);
      (k * p.widthIn / 11.0 + k * p.heightIn / 14.0) / 2.0;
      k * ((p.widthIn / 11.0 + p.heightIn / 14.0) / 2.0);
    }
    assert Margin(q) == 1.5 * (k * ScaleFactor(p)) * 72.0;
  }

  /** A derived size never shrinks when the scale grows. */
  lemma {:induction false} ScaledMonotone(k: real, s1: real, s2: real)
    requires 0.0 <= k && 0.0 <= s1 <= s2
    ensures 0 <= Scaled(k, s1) <= Scaled(k, s2)
  {
    var low, high := k * s1, k * s2;
    assert 0.0 <= low <= high by {
      assert k * (s2 - s1) >= 0.0;
    }
    var m, n := Trunc(low), Trunc(high);
    assert m as real <= low <= high < n as real + 1.0;
    assert m < n + 1;
  }

  /** On the baseline page the scale is 1, so every derived size is its baseline value. */
  lemma {:induction false} BaselinePageKeepsSizes(k: int)
    requires 0 <= k
    ensures ScaleFactor(Page(BaselineWidth, BaselineHeight)) == 1.0
    ensures Scaled(k as real, 1.0) == k
    ensures Margin(Page(BaselineWidth, BaselineHeight)) == 1.5 * Inch
  {
    assert (k as real * 1.0).Floor == k;
  }

  /** Every standard size is admissible and leaves a frame of positive width and height. */
  lemma StandardSizesLeaveRoom()
    ensures forall p :: p in StandardSizes ==>
      AdmissiblePage(p) && 0.0 < ContentWidth(p) && 0.0 < ContentHeight(p)
  {
  }

  /**
   * The admissible range is wider than the layout copes with: a 50 x 1 inch page has
   * margins taller than the page, so its frame height is negative.
   */
  lemma WidePageHasNoFrame()
    ensures AdmissiblePage(Page(50.0, 1.0)) && ContentHeight(Page(50.0, 1.0)) < 0.0
  {
  }
}
