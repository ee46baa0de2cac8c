/** One share decision of the FCMS controller: bounds, clamp, rounding up to the 1% grid, tolerance. */
module FcmsShares {
  import opened Reals

  const RESOURCE_SHARE_TOL := 0.01
  const RESOURCE_SHARE_LB_SCALE_FACTOR := 1.1

  function LowerDelta(share: real, util: real): real
    requires share != 0.0
  {
    (Min(1.0, util * RESOURCE_SHARE_LB_SCALE_FACTOR) - share) / share
  }

  function UpperDelta(share: real): real
    requires share != 0.0
  {
    Max(0.0, (1.0 - share) / share)
  }

  function RoundUp(x: real): real {
    Ceil(x / RESOURCE_SHARE_TOL) as real * RESOURCE_SHARE_TOL
  }

  /** The share before rounding. */
  function Unrounded(share: real, util: real, fuzzy: real): real
    requires share != 0.0
  {
    share * (1.0 + Clamp(fuzzy, LowerDelta(share, util), UpperDelta(share)))
  }

  /** Round up to the grid, within [0, 1]. */
  function Rounded(x: real): real {
    Max(Min(RoundUp(x), 1.0), 0.0)
  }

  function Computed(share: real, util: real, fuzzy: real): real
    requires share != 0.0
  {
    Rounded(Unrounded(share, util, fuzzy))
  }

  /** Knuth's "essentially equal": close relative to the smaller of the two. */
  predicate EssentiallyEqual(x: real, y: real, tol: real) {
    Abs(x - y) <= tol * Min(Abs(x), Abs(y))
  }

  /** The share after the control: the computed one, unless it is essentially the old one. */
  function NextShareOf(share: real, util: real, fuzzy: real): real
    requires share != 0.0
  {
    var n := Computed(share, util, fuzzy);
    if EssentiallyEqual(share, n, RESOURCE_SHARE_TOL) then share else n
  }

  // ---------------------------------------------------------------- meaning of the clamp

  predicate IsShare(x: real) {
    0.0 < x <= 1.0
  }

  /** What the utilisation calls for: ten percent above it, within the machine. */
  function LoadFloor(util: real): real {
    Min(1.0, 1.1 * util)
  }

  lemma BoundsOrdered(share: real, util: real)
    requires IsShare(share)
    ensures LowerDelta(share, util) <= UpperDelta(share)
  {
    var l, u := LowerDelta(share, util), (1.0 - share) / share;
    assert l * share == LoadFloor(util) - share && u * share == 1.0 - share;
    if u < l {
      MulLt(share, u, l, u * share, l * share);
    }
  }

  /** Clamping the change between the bounds is clamping the share between its floor and one. */
  lemma UnroundedIsClamp(share: real, util: real, fuzzy: real)
    requires IsShare(share)
    ensures Unrounded(share, util, fuzzy) == Clamp(share * (1.0 + fuzzy), LoadFloor(util), 1.0)
  {
    var l, u := LowerDelta(share, util), UpperDelta(share);
    var f, x := LoadFloor(util), share * (1.0 + fuzzy);
    ScaleLower(share, l, f);
    ScaleUpper(share, u);
    BoundsOrdered(share, util);
    Scaled(share, fuzzy, l, x, f);
    Scaled(share, fuzzy, u, x, 1.0);
  }

  lemma ScaleLower(share: real, l: real, f: real)
    requires share > 0.0 && l == (f - share) / share
    ensures share * (1.0 + l) == f
  {
    assert l * share == f - share;
  }

  lemma ScaleUpper(share: real, u: real)
    requires IsShare(share) && u == Max(0.0, (1.0 - share) / share)
    ensures share * (1.0 + u) == 1.0
  {
    var v := (1.0 - share) / share;
    assert v * share == 1.0 - share;
    if v < 0.0 {
      MulLt(share, v, 0.0, v * share, 0.0);
    }
  }

  lemma Scaled(share: real, d: real, e: real, x: real, y: real)
    requires share > 0.0 && x == share * (1.0 + d) && y == share * (1.0 + e)
    ensures d < e <==> x < y
  {
    if d < e {
      MulLt(share, 1.0 + d, 1.0 + e, x, y);
    } else {
      MulLe(share, 1.0 + e, 1.0 + d, y, x);
    }
  }

  // ---------------------------------------------------------------- rounding

  lemma RoundUpProperty(x: real)
    ensures x <= RoundUp(x) < x + 0.01
    ensures RoundUp(x) == Ceil(100.0 * x) as real / 100.0
  {
    assert x / RESOURCE_SHARE_TOL == 100.0 * x;
  }

  lemma CeilMonotone(x: real, y: real)
    requires x <= y
    ensures Ceil(x) <= Ceil(y)
  {
  }

  /** x is k hundredths of the machine. */
  predicate OnGrid(x: real, k: int) {
    1 <= k <= 100 && x == k as real / 100.0
  }

  /** A computed share lies on the grid, covers the floor, and exceeds the unrounded share by less than 1%. */
  lemma ComputedShare(share: real, util: real, fuzzy: real)
    requires IsShare(share) && fuzzy > -1.0
    ensures var n, x := Computed(share, util, fuzzy), Unrounded(share, util, fuzzy);
            && IsShare(n) && Min(1.0, 1.1 * util) <= n && x <= n < x + 0.01
            && OnGrid(n, Ceil(100.0 * x))
  {
    var x := Unrounded(share, util, fuzzy);
    UnroundedIsClamp(share, util, fuzzy);
    MulLt(share, 0.0, 1.0 + fuzzy, 0.0, share * (1.0 + fuzzy));
    assert 0.0 < x <= 1.0 && LoadFloor(util) <= x;
    RoundUpProperty(x);
    var k := Ceil(100.0 * x);
    assert 1 <= k <= 100;
    assert Computed(share, util, fuzzy) == k as real / 100.0;
  }

  /** Asking for more, or using more, never computes less. */
  lemma ComputedMonotone(share: real, util: real, util': real, fuzzy: real, fuzzy': real)
    requires IsShare(share) && util <= util' && fuzzy <= fuzzy'
    ensures Computed(share, util, fuzzy) <= Computed(share, util', fuzzy')
  {
    UnroundedMonotone(share, util, util', fuzzy, fuzzy');
    RoundedMonotone(Unrounded(share, util, fuzzy), Unrounded(share, util', fuzzy'));
  }

  lemma UnroundedMonotone(share: real, util: real, util': real, fuzzy: real, fuzzy': real)
    requires IsShare(share) && util <= util' && fuzzy <= fuzzy'
    ensures Unrounded(share, util, fuzzy) <= Unrounded(share, util', fuzzy')
  {
    hide Unrounded;
    UnroundedIsClamp(share, util, fuzzy);
    UnroundedIsClamp(share, util', fuzzy');
    var a, b := share * (1.0 + fuzzy), share * (1.0 + fuzzy');
    MulLe(share, 1.0 + fuzzy, 1.0 + fuzzy', a, b);
    ClampMonotone(a, b, LoadFloor(util), LoadFloor(util'));
  }

  lemma ClampMonotone(x: real, y: real, lo: real, lo': real)
    requires x <= y && lo <= lo' <= 1.0
    ensures Clamp(x, lo, 1.0) <= Clamp(y, lo', 1.0)
  {
  }

  lemma RoundedMonotone(x: real, y: real)
    requires x <= y
    ensures Rounded(x) <= Rounded(y)
  {
    RoundUpProperty(x);
    RoundUpProperty(y);
    CeilMonotone(100.0 * x, 100.0 * y);
  }

  /**
   * After a control a share is a share, within 1% of the computed one, and covers its floor up to
   * that; it is kept if and only if the computed one is as close as that.
   */
  lemma NextShare(share: real, util: real, fuzzy: real)
    requires IsShare(share) && fuzzy > -1.0
    ensures var n, c := NextShareOf(share, util, fuzzy), Computed(share, util, fuzzy);
            && IsShare(n) && Min(1.0, 1.1 * util) <= 1.01 * n && n <= 1.01 * c && c <= 1.01 * n
            && (n == share <==> share <= 1.01 * c && c <= 1.01 * share)
            && (n != share ==> n == c)
  {
    ComputedShare(share, util, fuzzy);
  }

  // ---------------------------------------------------------------- growth

  /** The 1% cell of a share. */
  function Cell(x: real): int {
    (100.0 * x).Floor
  }

  /** A share that the tolerance no longer tells from the whole machine. */
  predicate Full(x: real) {
    x == 1.0 || EssentiallyEqual(x, 1.0, RESOURCE_SHARE_TOL)
  }

  /** Such a share is at least 100/101. */
  lemma FullIff(x: real)
    requires IsShare(x)
    ensures Full(x) <==> 1.01 * x >= 1.0
  {
  }

  /** A control that asks for 5% more either moves the share to a higher cell or finds it full. */
  lemma GrowthStep(share: real, util: real, fuzzy: real)
    requires IsShare(share) && fuzzy > 0.05
    ensures var n := NextShareOf(share, util, fuzzy);
            IsShare(n) && (Full(n) || Cell(share) + 1 <= Cell(n) <= 99)
    ensures Full(share) ==> Full(NextShareOf(share, util, fuzzy))
  {
    ComputedShare(share, util, fuzzy);
    UnroundedGrows(share, util, fuzzy);
    GrowthOnGrid(share, Computed(share, util, fuzzy), Ceil(100.0 * Unrounded(share, util, fuzzy)));
  }

  lemma UnroundedGrows(share: real, util: real, fuzzy: real)
    requires IsShare(share) && fuzzy > 0.05
    ensures Min(1.0, 1.05 * share) <= Unrounded(share, util, fuzzy)
  {
    UnroundedIsClamp(share, util, fuzzy);
    var a := share * (1.0 + fuzzy);
    MulLe(share, 1.05, 1.0 + fuzzy, 1.05 * share, a);
  }

  lemma GrowthOnGrid(share: real, n: real, k: int)
    requires IsShare(share) && OnGrid(n, k) && Min(1.0, 1.05 * share) <= n
    ensures var n' := if EssentiallyEqual(share, n, RESOURCE_SHARE_TOL) then share else n;
            && IsShare(n') && (Full(n') || Cell(share) + 1 <= Cell(n') <= 99)
            && (Full(share) ==> Full(n'))
  {
    assert 100.0 * n == k as real;
    if n < 1.0 {
      assert 1.05 * share <= n;
      assert !EssentiallyEqual(share, n, RESOURCE_SHARE_TOL);
      assert 100.0 * share < k as real;
    }
  }
}
