// Percentile and median of the scores of an evaluation, over the reals.
module Percentile {

  import opened Sorting

  ghost predicate Ascending(cp: seq<real>) {
    forall i, j :: 0 <= i < j < |cp| ==> cp[i] <= cp[j]
  }

  // cp is xs sorted.
  ghost predicate SortedCopy(cp: seq<real>, xs: seq<real>) {
    Ascending(cp) && multiset(cp) == multiset(xs)
  }

  function Itself(x: real): real {
    x
  }

  function Sort(xs: seq<real>): seq<real> {
    SortBy(Itself, xs)
  }

  lemma SortIsCopy(xs: seq<real>)
    ensures SortedCopy(Sort(xs), xs) && |Sort(xs)| == |xs|
  {
    SortSorts(Itself, xs);
    var cp := Sort(xs);
    forall i, j | 0 <= i < j < |cp| ensures cp[i] <= cp[j] {
      assert Itself(cp[i]) <= Itself(cp[j]);
    }
  }

  lemma AscendingMax(cp: seq<real>)
    requires Ascending(cp) && cp != []
    ensures Ascending(cp[..|cp| - 1])
    ensures forall y :: y in multiset(cp) ==> y <= cp[|cp| - 1]
  {
    forall y | y in multiset(cp) ensures y <= cp[|cp| - 1] {
      assert y in cp;
    }
  }

  // A list has one sorted copy.
  lemma {:induction false} SortedOnce(a: seq<real>, b: seq<real>)
    requires Ascending(a) && Ascending(b) && multiset(a) == multiset(b)
    ensures a == b
  {
    hide Ascending;
    assert |multiset(a)| == |multiset(b)|;
    if a != [] {
      AscendingMax(a);
      AscendingMax(b);
      Init(a);
      Init(b);
      assert a[|a| - 1] in multiset(b) && b[|b| - 1] in multiset(a);
      assert a[|a| - 1] == b[|b| - 1];
      var i, j := a[..|a| - 1], b[..|b| - 1];
      assert multiset(i) == multiset(a) - multiset{a[|a| - 1]};
      assert multiset(j) == multiset(b) - multiset{b[|b| - 1]};
      SortedOnce(i, j);
    }
  }

  function Times(a: real, b: real): real {
    a * b
  }

  lemma TimesEnds(x: real)
    ensures Times(0.0, x) == 0.0 && Times(1.0, x) == x
  {
  }

  function Between(lo: real, hi: real, fraction: real): real {
    lo + Times(fraction, hi - lo)
  }

  lemma BetweenZero(lo: real, hi: real)
    ensures Between(lo, hi, 0.0) == lo
  {
  }

  lemma BetweenEnds(lo: real, hi: real, fraction: real)
    requires lo <= hi && 0.0 <= fraction <= 1.0
    ensures lo <= Between(lo, hi, fraction) <= hi
  {
    hide Times;
    Scaled(fraction, hi - lo);
  }

  lemma BetweenRises(lo: real, hi: real, f: real, g: real)
    requires lo <= hi && f <= g
    ensures Between(lo, hi, f) <= Between(lo, hi, g)
  {
    hide Times;
    Steeper(f, g, hi - lo);
  }

  function OfSorted(cp: seq<real>, p: real): real
    requires cp != []
  {
    if p <= 0.0 then cp[0]
    else if p >= 100.0 then cp[|cp| - 1]
    else
      var idx := Times(p / 100.0, (|cp| - 1) as real);
      Bounded(p, |cp| - 1);
      var i := idx.Floor;
      var fraction := idx - i as real;
      if i + 1 < |cp| then Between(cp[i], cp[i + 1], fraction) else cp[i]
  }

  function Percentile(xs: seq<real>, p: real): real {
    if xs == [] then 0.0
    else
      SortIsCopy(xs);
      OfSorted(Sort(xs), p)
  }

  function Median(xs: seq<real>): real {
    if xs == [] then 0.0
    else
      SortIsCopy(xs);
      var cp := Sort(xs);
      var mid := |cp| / 2;
      if |cp| % 2 == 1 then cp[mid] else (cp[mid - 1] + cp[mid]) / 2.0
  }

  lemma Bounded(p: real, n: nat)
    requires 0.0 <= p <= 100.0
    ensures 0.0 <= Times(p / 100.0, n as real) <= n as real
  {
    var q := p / 100.0;
    assert 0.0 <= q <= 1.0;
    Scaled(q, n as real);
  }

  lemma Scaled(q: real, x: real)
    requires 0.0 <= q <= 1.0 && x >= 0.0
    ensures 0.0 <= Times(q, x) <= x
  {
    NonNegative(q, x);
    NonNegative(1.0 - q, x);
    assert (1.0 - q) * x == x - q * x;
  }

  lemma NonNegative(a: real, b: real)
    requires a >= 0.0 && b >= 0.0
    ensures a * b >= 0.0
  {
  }

  // --- laws ---

  // The order of the scores does not matter.
  lemma OrderIndependent(xs: seq<real>, ys: seq<real>, p: real)
    requires multiset(xs) == multiset(ys)
    ensures Percentile(xs, p) == Percentile(ys, p) && Median(xs) == Median(ys)
  {
    hide Sort, OfSorted, Ascending;
    assert |multiset(xs)| == |multiset(ys)|;
    SortIsCopy(xs);
    SortIsCopy(ys);
    SortedOnce(Sort(xs), Sort(ys));
  }

  // The line through the sorted scores, at 0 <= x <= |cp| - 1.
  function Line(cp: seq<real>, x: real): real
    requires 0.0 <= x <= (|cp| - 1) as real
  {
    var i := x.Floor;
    if i + 1 < |cp| then Between(cp[i], cp[i + 1], x - i as real) else cp[i]
  }

  // A point of the line lies between the two scores around it.
  lemma LineBetween(cp: seq<real>, x: real)
    requires Ascending(cp) && 0.0 <= x <= (|cp| - 1) as real
    ensures cp[x.Floor] <= Line(cp, x)
    ensures Line(cp, x) <= if x.Floor + 1 < |cp| then cp[x.Floor + 1] else cp[x.Floor]
  {
    var i := x.Floor;
    if i + 1 < |cp| {
      BetweenEnds(cp[i], cp[i + 1], x - i as real);
    }
  }

  lemma LineRises(cp: seq<real>, x: real, y: real)
    requires Ascending(cp) && 0.0 <= x <= y <= (|cp| - 1) as real
    ensures Line(cp, x) <= Line(cp, y)
  {
    var i, j := x.Floor, y.Floor;
    hide Between;
    if i == j {
      if i + 1 < |cp| {
        BetweenRises(cp[i], cp[i + 1], x - i as real, y - i as real);
      }
    } else {
      LineBetween(cp, x);
      LineBetween(cp, y);
    }
  }

  lemma Steeper(a: real, b: real, d: real)
    requires a <= b && d >= 0.0
    ensures Times(a, d) <= Times(b, d)
  {
    NonNegative(b - a, d);
    assert (b - a) * d == b * d - a * d;
  }

  function Place(p: real, n: nat): (x: real)
    requires n > 0
    ensures 0.0 <= x <= (n - 1) as real
  {
    Bounded(Clamp(p), n - 1);
    Times(Clamp(p) / 100.0, (n - 1) as real)
  }

  function Clamp(p: real): (q: real)
    ensures 0.0 <= q <= 100.0
  {
    if p <= 0.0 then 0.0 else if p >= 100.0 then 100.0 else p
  }

  lemma OnLine(cp: seq<real>, p: real)
    requires cp != []
    ensures OfSorted(cp, p) == Line(cp, Place(p, |cp|))
  {
    TimesEnds((|cp| - 1) as real);
    if |cp| > 1 { BetweenZero(cp[0], cp[1]); }
    hide Times, Between;
  }

  lemma PlaceRises(p: real, q: real, n: nat)
    requires p <= q && n > 0
    ensures Place(p, n) <= Place(q, n)
  {
    hide Times;
    Steeper(Clamp(p) / 100.0, Clamp(q) / 100.0, (n - 1) as real);
  }

  // A higher percentile is never lower.
  lemma Monotone(xs: seq<real>, p: real, q: real)
    requires p <= q
    ensures Percentile(xs, p) <= Percentile(xs, q)
  {
    hide Line, Place, OfSorted, Ascending, Sort;
    if xs != [] {
      SortIsCopy(xs);
      OnLine(Sort(xs), p);
      OnLine(Sort(xs), q);
      PlaceRises(p, q, |xs|);
      LineRises(Sort(xs), Place(p, |xs|), Place(q, |xs|));
    }
  }

  // Every percentile lies between the smallest and the largest score, and both are reached.
  lemma Bounds(xs: seq<real>, p: real, lo: real, hi: real)
    requires lo in xs && hi in xs && forall x :: x in xs ==> lo <= x <= hi
    ensures lo == Percentile(xs, 0.0) <= Percentile(xs, p) <= Percentile(xs, 100.0) == hi
  {
    Extremes(xs, lo, hi);
    ClampSame(xs, p);
    hide Percentile;
    Monotone(xs, Clamp(p), 100.0);
    Monotone(xs, 0.0, Clamp(p));
  }

  lemma Extremes(xs: seq<real>, lo: real, hi: real)
    requires lo in xs && hi in xs && forall x :: x in xs ==> lo <= x <= hi
    ensures lo == Percentile(xs, 0.0) && Percentile(xs, 100.0) == hi
  {
    hide Sort, Between;
    SortIsCopy(xs);
    var cp := Sort(xs);
    assert lo in multiset(xs) && hi in multiset(xs);
    assert lo in cp && hi in cp;
    assert cp[0] in multiset(cp) && cp[|cp| - 1] in multiset(cp);
    assert cp[0] in xs && cp[|cp| - 1] in xs;
  }

  lemma ClampSame(xs: seq<real>, p: real)
    ensures Percentile(xs, Clamp(p)) == Percentile(xs, p)
  {
    hide Sort, Between;
    if xs != [] { SortIsCopy(xs); }
  }

  // The two separately coded middles agree.
  lemma MedianIsHalf(xs: seq<real>)
    ensures Percentile(xs, 50.0) == Median(xs)
  {
    hide Sort, Ascending;
    if xs != [] {
      SortIsCopy(xs);
      HalfOfSorted(Sort(xs));
    }
  }

  lemma HalfOfSorted(cp: seq<real>)
    requires cp != []
    ensures OfSorted(cp, 50.0) == if |cp| % 2 == 1 then cp[|cp| / 2] else (cp[|cp| / 2 - 1] + cp[|cp| / 2]) / 2.0
  {
    var idx := Times(50.0 / 100.0, (|cp| - 1) as real);
    if |cp| % 2 == 1 {
      assert idx == (|cp| / 2) as real;
      assert idx.Floor == |cp| / 2;
    } else {
      assert idx == (|cp| / 2 - 1) as real + 0.5;
      assert idx.Floor == |cp| / 2 - 1;
    }
  }

  // Enough scores lie on either side: at least the rounded-down place below or at the
  // percentile, and the rest but one at or above it.
  lemma Splits(xs: seq<real>, p: real)
    requires xs != []
    ensures var cp, k := Sort(xs), Place(p, |xs|).Floor;
      |cp| == |xs| && 0 <= k < |cp| &&
      (forall i :: 0 <= i <= k ==> cp[i] <= Percentile(xs, p)) &&
        (forall i :: k < i < |cp| ==> Percentile(xs, p) <= cp[i])
  {
    hide Line, Place, OfSorted, Sort;
    SortIsCopy(xs);
    OnLine(Sort(xs), p);
    LineBetween(Sort(xs), Place(p, |xs|));
  }

  // Between two neighbours of the sorted scores the percentile runs straight from one to the
  // other; p stands at k + w of the n - 1 gaps.
  lemma StraightBetween(xs: seq<real>, cp: seq<real>, p: real, k: nat, w: real)
    requires SortedCopy(cp, xs) && k + 1 < |cp| && 0.0 <= w <= 1.0
    requires p / 100.0 * (|cp| - 1) as real == k as real + w
    ensures Percentile(xs, p) == (1.0 - w) * cp[k] + w * cp[k + 1]
  {
    SortIsCopy(xs);
    SortedOnce(Sort(xs), cp);
    assert xs != [] by {
      assert |multiset(cp)| == |multiset(xs)|;
    }
    hide Sort, SortedCopy, Ascending, OfSorted, Between;
    assert Times(p / 100.0, (|cp| - 1) as real) == p / 100.0 * (|cp| - 1) as real;
    StraightOn(cp, p, k, w);
    Mixed(cp[k], cp[k + 1], w);
  }

  lemma StraightOn(cp: seq<real>, p: real, k: nat, w: real)
    requires k + 1 < |cp| && 0.0 <= w <= 1.0
    requires Times(p / 100.0, (|cp| - 1) as real) == k as real + w
    ensures OfSorted(cp, p) == Between(cp[k], cp[k + 1], w)
  {
    hide Times, Between;
    BetweenZero(cp[k], cp[k + 1]);
    BetweenOne(cp[k], cp[k + 1]);
    if p <= 0.0 {
      NotAbove(p / 100.0, (|cp| - 1) as real);
      Least(k, w);
    } else if p >= 100.0 {
      NotBelow(p / 100.0, (|cp| - 1) as real);
      Most(|cp| - 1, k, w);
    } else if w == 1.0 {
      assert (k as real + w).Floor == k + 1;
      if k + 2 < |cp| {
        BetweenZero(cp[k + 1], cp[k + 2]);
      }
    } else {
      assert (k as real + w).Floor == k;
    }
  }

  lemma BetweenOne(lo: real, hi: real)
    ensures Between(lo, hi, 1.0) == hi
  {
  }

  lemma NotAbove(a: real, n: real)
    requires a <= 0.0 && n >= 0.0
    ensures Times(a, n) <= 0.0
  {
    NonNegative(-a, n);
    assert (-a) * n == -(a * n);
  }

  lemma NotBelow(a: real, n: real)
    requires a >= 1.0 && n >= 0.0
    ensures Times(a, n) >= n
  {
    NonNegative(a - 1.0, n);
    assert (a - 1.0) * n == a * n - n;
  }

  lemma Least(k: nat, w: real)
    requires w >= 0.0 && k as real + w <= 0.0
    ensures k == 0 && w == 0.0
  {
  }

  lemma Most(n: nat, k: nat, w: real)
    requires k < n && w <= 1.0 && k as real + w >= n as real
    ensures k + 1 == n && w == 1.0
  {
    assert k as real >= (n - 1) as real;
  }

  lemma Mixed(lo: real, hi: real, w: real)
    ensures Between(lo, hi, w) == (1.0 - w) * lo + w * hi
  {
  }

  // No scores have no percentile, which is reported as zero, and one has only itself.
  lemma FewScores(xs: seq<real>, p: real)
    ensures xs == [] ==> Percentile(xs, p) == 0.0 == Median(xs)
    ensures |xs| == 1 ==> Percentile(xs, p) == xs[0] == Median(xs)
  {
    if |xs| == 1 {
      Bounds(xs, p, xs[0], xs[0]);
      Bounds(xs, 50.0, xs[0], xs[0]);
      hide Percentile, Median;
      MedianIsHalf(xs);
    }
  }
}
