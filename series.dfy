/** Reference definitions of the survival-data pipeline of class_mortality.py
    over exact reals, and the properties proved about them.

    A series is a `seq<real>`; a (time, survival) pair of series is two
    sequences read index by index. The imperative class in mortality.dfy is
    proved to compute exactly these functions. */
module Series {

  /** The time axis of a survival series: strictly increasing. */
  predicate StrictlyIncreasing(x: seq<real>) {
    forall i, j :: 0 <= i < j < |x| ==> x[i] < x[j]
  }

  /** No two samples k positions apart share a time value, so the difference
      quotients over a k-step are defined. */
  predicate StepsNonZero(x: seq<real>, k: nat) {
    forall i :: 0 <= i < |x| - k ==> x[i + k] != x[i]
  }

  lemma IncreasingStepsNonZero(x: seq<real>, k: nat)
    requires StrictlyIncreasing(x) && k >= 1
    ensures StepsNonZero(x, k)
  {
  }

  /** `x[:-1]` in the source: every sample but the last (nothing when empty). */
  function DropLast(x: seq<real>): (r: seq<real>)
    ensures |x| > 0 ==> |r| == |x| - 1
    ensures |x| == 0 ==> r == []
    ensures forall i :: 0 <= i < |r| ==> r[i] == x[i]
  {
    if |x| == 0 then [] else x[..|x| - 1]
  }

  /** `x[1:-1]` in the source: every sample but the first and the last. */
  function Interior(x: seq<real>): (r: seq<real>)
    ensures |x| >= 2 ==> |r| == |x| - 2
    ensures |x| < 2 ==> r == []
    ensures forall i :: 0 <= i < |r| ==> r[i] == x[i + 1]
  {
    if |x| <= 2 then [] else x[1..|x| - 1]
  }

  // ---------------------------------------------------------------------------
  // Normalisation (scaling)

  /** The survival series divided by its first sample. */
  function Scaled(s: seq<real>): (r: seq<real>)
    requires |s| == 0 || s[0] != 0.0
    ensures |r| == |s|
    ensures forall i :: 0 <= i < |s| ==> r[i] * s[0] == s[i]
    ensures |r| > 0 ==> r[0] == 1.0
  {
    seq(|s|, i requires 0 <= i < |s| => s[i] / s[0])
  }

  /** Scaling an already scaled series changes nothing. */
  lemma ScaledIdempotent(s: seq<real>)
    requires |s| == 0 || s[0] != 0.0
    ensures Scaled(Scaled(s)) == Scaled(s)
  {
  }

  // ---------------------------------------------------------------------------
  // Downsampling (new_bin)

  lemma MulLe(i: int, j: int, b: int)
    requires i <= j && b >= 0
    ensures i * b <= j * b
  {
  }

  /** The last kept sample sits at least b samples before the end of x. */
  lemma BinIndex(i: int, n: int, b: int)
    requires b >= 1 && 0 <= i < n / b
    ensures i * b + b <= n
  {
    MulLe(i + 1, n / b, b);
    assert (i + 1) * b == i * b + b;
    assert n == (n / b) * b + n % b;
  }

  /** Every b-th sample starting at index 0: `int(len(x) / b)` samples. */
  function Binned(x: seq<real>, b: int): (r: seq<real>)
    requires b >= 1
    ensures |r| == |x| / b
  {
    seq(|x| / b, i requires 0 <= i < |x| / b => BinIndex(i, |x|, b); x[i * b])
  }

  /** Downsampling splits x into blocks of b samples and keeps the first of
      each: sample j of a complete block is represented by kept sample j / b,
      which is x[j - j % b], and fewer than b samples at the end belong to no
      complete block. */
  lemma BinnedBlock(x: seq<real>, b: int, j: int)
    requires b >= 1 && 0 <= j < |x|
    ensures var r := Binned(x, b);
      (j < |r| * b <==> j / b < |r|) &&
      (j / b < |r| ==> r[j / b] == x[j - j % b] && j - j % b <= j < j - j % b + b) &&
      |x| - |r| * b < b
  {
    var r := Binned(x, b);
    var q := j / b;
    assert j == q * b + j % b;
    assert |x| == (|x| / b) * b + |x| % b;
    if q < |r| {
      BinIndex(q, |x|, b);
      MulLe(q + 1, |r|, b);
      assert (q + 1) * b == q * b + b;
    } else {
      MulLe(|r|, q, b);
    }
  }

  /** With b = 1 downsampling is the identity. */
  lemma BinnedByOne(x: seq<real>)
    ensures Binned(x, 1) == x
  {
  }

  /** With b larger than the series nothing is kept. */
  lemma BinnedEmpty(x: seq<real>, b: int)
    requires b > |x|
    ensures Binned(x, b) == []
  {
  }

  /** Downsampling keeps a strictly increasing time axis strictly increasing. */
  lemma BinnedIncreasing(x: seq<real>, b: int)
    requires b >= 1 && StrictlyIncreasing(x)
    ensures StrictlyIncreasing(Binned(x, b))
  {
    var r := Binned(x, b);
    forall i, j | 0 <= i < j < |r| ensures r[i] < r[j] {
      MulLe(i + 1, j, b);
      assert (i + 1) * b == i * b + b;
      BinIndex(j, |x|, b);
      assert r[i] == x[i * b] && r[j] == x[j * b];
    }
  }

  /** Downsampling keeps index 0, so normalising before or after it gives the
      same series: the scaling base is the true first sample either way. */
  lemma BinnedScaledCommute(s: seq<real>, b: int)
    requires b >= 1 && (|s| == 0 || s[0] != 0.0)
    ensures var k := Binned(s, b); |k| == 0 || k[0] == s[0]
    ensures Binned(Scaled(s), b) == Scaled(Binned(s, b))
  {
  }

  // ---------------------------------------------------------------------------
  // Moving average (moving_average)

  /** x[lo] + ... + x[hi - 1]. */
  function Sum(x: seq<real>, lo: int, hi: int): (r: real)
    requires 0 <= lo <= hi <= |x|
    ensures hi == lo + 1 ==> r == x[lo]
    decreases hi - lo
  {
    if lo == hi then 0.0 else Sum(x, lo, hi - 1) + x[hi - 1]
  }

  /** A sum splits at any midpoint; in particular a window sum is the
      difference of two prefix sums (the cumulative-sum trick). */
  lemma {:induction false} SumSplit(x: seq<real>, lo: int, mid: int, hi: int)
    requires 0 <= lo <= mid <= hi <= |x|
    ensures Sum(x, lo, mid) + Sum(x, mid, hi) == Sum(x, lo, hi)
    decreases hi - mid
  {
    if mid < hi {
      SumSplit(x, lo, mid, hi - 1);
    }
  }

  /** Two windows of equal length whose samples compare pointwise compare in sum. */
  lemma {:induction false} SumLess(x: seq<real>, i: int, j: int, len: int)
    requires StrictlyIncreasing(x)
    requires 0 <= i < j && len >= 1 && j + len <= |x|
    ensures Sum(x, i, i + len) < Sum(x, j, j + len)
    decreases len
  {
    if len > 1 {
      SumLess(x, i, j, len - 1);
    }
    assert x[i + len - 1] < x[j + len - 1];
  }

  /** Number of trailing windows of m samples in a series of n samples. */
  function WindowCount(n: int, m: int): (r: nat)
    ensures r == 0 <==> n < m
    ensures r > 0 ==> r + m - 1 == n
  {
    if n >= m then n - m + 1 else 0
  }

  /** The trailing moving average: element i is the mean of the window
      x[i], ..., x[i + m - 1]. */
  function WindowMeans(x: seq<real>, m: int): (r: seq<real>)
    requires m >= 1
    ensures |r| == WindowCount(|x|, m)
    ensures forall i :: 0 <= i < |r| ==> r[i] * (m as real) == Sum(x, i, i + m)
  {
    seq(WindowCount(|x|, m), i requires 0 <= i < WindowCount(|x|, m) => Sum(x, i, i + m) / (m as real))
  }

  /** With a window of one sample the moving average is the identity. */
  lemma WindowMeansOfOne(x: seq<real>)
    ensures WindowMeans(x, 1) == x
  {
  }

  /** Consecutive means differ by the sample entering the window minus the
      sample leaving it, over m. */
  lemma WindowMeansSlide(x: seq<real>, m: int, i: int)
    requires m >= 1 && 0 <= i && i + m < |x|
    ensures var r := WindowMeans(x, m);
      i + 1 < |r| && r[i + 1] - r[i] == (x[i + m] - x[i]) / (m as real)
  {
    var r := WindowMeans(x, m);
    SumSplit(x, i, i + 1, i + m);
    SumSplit(x, i + 1, i + m, i + m + 1);
    assert Sum(x, i, i + 1) == x[i];
    assert Sum(x, i + m, i + m + 1) == x[i + m];
    assert r[i + 1] * (m as real) - r[i] * (m as real) == x[i + m] - x[i];
  }

  /** Smoothing keeps a strictly increasing time axis strictly increasing. */
  lemma WindowMeansIncreasing(x: seq<real>, m: int)
    requires m >= 1 && StrictlyIncreasing(x)
    ensures StrictlyIncreasing(WindowMeans(x, m))
  {
    var r := WindowMeans(x, m);
    forall i, j | 0 <= i < j < |r| ensures r[i] < r[j] {
      SumLess(x, i, j, m);
      assert r[i] == Sum(x, i, i + m) / (m as real);
      assert r[j] == Sum(x, j, j + m) / (m as real);
      DivLess(Sum(x, i, i + m), Sum(x, j, j + m), m as real);
    }
  }

  /** Dividing by a positive number keeps a strict inequality. */
  lemma DivLess(a: real, b: real, c: real)
    requires c > 0.0 && a < b
    ensures a / c < b / c
  {
  }

  // ---------------------------------------------------------------------------
  // Difference quotients (derivative, derivative_central_difference_method)

  /** The slope of the secant through (x0, y0) and (x1, y1). */
  function Slope(x0: real, x1: real, y0: real, y1: real): real
    requires x1 != x0
  {
    (y1 - y0) / (x1 - x0)
  }

  /** The value reached from y0 at x0 by following slope d up to x1. */
  function Advance(y0: real, d: real, x0: real, x1: real): real {
    y0 + d * (x1 - x0)
  }

  /** The point a * x + c0 of a straight line. */
  function Line(a: real, c0: real, x: real): real {
    a * x + c0
  }

  /** The mean of v0 and v1 weighted by w0 and w1. */
  function WeightedMean(w0: real, v0: real, w1: real, v1: real): real
    requires w0 + w1 != 0.0
  {
    (w0 * v0 + w1 * v1) / (w0 + w1)
  }

  /** Following a secant from its first point reaches its second point. */
  lemma SlopeAdvance(x0: real, x1: real, y0: real, y1: real)
    requires x1 != x0
    ensures Advance(y0, Slope(x0, x1, y0, y1), x0, x1) == y1
  {
  }

  /** A secant between two points of the line a * x + c0 has slope a. */
  lemma SlopeOfLine(x0: real, x1: real, a: real, c0: real)
    requires x1 != x0
    ensures Slope(x0, x1, Line(a, c0, x0), Line(a, c0, x1)) == a
  {
  }

  /** The secant over two steps is the step-weighted mean of the secants over
      each step. */
  lemma SlopeWeighted(x0: real, x1: real, x2: real, y0: real, y1: real, y2: real)
    requires x1 != x0 && x2 != x1 && x2 != x0
    ensures Slope(x0, x2, y0, y2) ==
      WeightedMean(x1 - x0, Slope(x0, x1, y0, y1), x2 - x1, Slope(x1, x2, y1, y2))
  {
  }

  /** Forward difference quotients, paired with DropLast(x):
      element i is the slope from sample i to sample i + 1. */
  function ForwardQuotients(x: seq<real>, y: seq<real>): (d: seq<real>)
    requires |x| <= |y| && StepsNonZero(x, 1)
    ensures |d| == |DropLast(x)|
  {
    seq(|DropLast(x)|, i requires 0 <= i < |DropLast(x)| => Slope(x[i], x[i + 1], y[i], y[i + 1]))
  }

  /** Central difference quotients, paired with Interior(x):
      element i is the slope from sample i to sample i + 2. */
  function CentralQuotients(x: seq<real>, y: seq<real>): (d: seq<real>)
    requires |x| <= |y| && StepsNonZero(x, 2)
    ensures |d| == |Interior(x)|
  {
    seq(|Interior(x)|, i requires 0 <= i < |Interior(x)| => Slope(x[i], x[i + 2], y[i], y[i + 2]))
  }

  /** The central quotient at i is the step-weighted mean of the two forward
      quotients around sample i + 1. */
  lemma CentralIsWeightedForward(x: seq<real>, y: seq<real>, i: int)
    requires |x| <= |y| && StepsNonZero(x, 1) && StepsNonZero(x, 2)
    requires 0 <= i < |x| - 2
    ensures var f := ForwardQuotients(x, y);
      var c := CentralQuotients(x, y);
      i + 1 < |f| && i < |c| &&
      c[i] == WeightedMean(x[i + 1] - x[i], f[i], x[i + 2] - x[i + 1], f[i + 1])
  {
    var f := ForwardQuotients(x, y);
    var c := CentralQuotients(x, y);
    assert f[i] == Slope(x[i], x[i + 1], y[i], y[i + 1]);
    assert f[i + 1] == Slope(x[i + 1], x[i + 2], y[i + 1], y[i + 2]);
    assert c[i] == Slope(x[i], x[i + 2], y[i], y[i + 2]);
    SlopeWeighted(x[i], x[i + 1], x[i + 2], y[i], y[i + 1], y[i + 2]);
  }

  /** On samples of a straight line both schemes return its slope exactly. */
  lemma QuotientsOfLine(x: seq<real>, y: seq<real>, a: real, c: real)
    requires |x| == |y| && StepsNonZero(x, 1) && StepsNonZero(x, 2)
    requires forall i :: 0 <= i < |x| ==> y[i] == Line(a, c, x[i])
    ensures forall i :: 0 <= i < |ForwardQuotients(x, y)| ==> ForwardQuotients(x, y)[i] == a
    ensures forall i :: 0 <= i < |CentralQuotients(x, y)| ==> CentralQuotients(x, y)[i] == a
  {
    var f := ForwardQuotients(x, y);
    var d := CentralQuotients(x, y);
    forall i | 0 <= i < |f| ensures f[i] == a {
      assert f[i] == Slope(x[i], x[i + 1], y[i], y[i + 1]);
      assert y[i] == Line(a, c, x[i]) && y[i + 1] == Line(a, c, x[i + 1]);
      SlopeOfLine(x[i], x[i + 1], a, c);
    }
    forall i | 0 <= i < |d| ensures d[i] == a {
      assert d[i] == Slope(x[i], x[i + 2], y[i], y[i + 2]);
      assert y[i] == Line(a, c, x[i]) && y[i + 2] == Line(a, c, x[i + 2]);
      SlopeOfLine(x[i], x[i + 2], a, c);
    }
  }

  /** Rebuilds a series from its first value and its forward quotients, one
      step x[k + 1] - x[k] at a time. */
  function Accumulated(x: seq<real>, y0: real, d: seq<real>): (r: seq<real>)
    requires |d| < |x|
    ensures |r| == |d| + 1 && r[0] == y0
    decreases |d|
  {
    if |d| == 0 then
      [y0]
    else
      var p := Accumulated(x, y0, d[..|d| - 1]);
      p + [Advance(p[|d| - 1], d[|d| - 1], x[|d| - 1], x[|d|])]
  }

  lemma {:induction false} AccumulatedPrefix(x: seq<real>, y: seq<real>, k: nat)
    requires |x| == |y| && StepsNonZero(x, 1) && k < |x|
    ensures k <= |ForwardQuotients(x, y)|
    ensures Accumulated(x, y[0], ForwardQuotients(x, y)[..k]) == y[..k + 1]
  {
    var f := ForwardQuotients(x, y);
    if k > 0 {
      AccumulatedPrefix(x, y, k - 1);
      var d := f[..k];
      assert d[..k - 1] == f[..k - 1];
      var p := Accumulated(x, y[0], d[..k - 1]);
      assert p == y[..k];
      assert d[k - 1] == Slope(x[k - 1], x[k], y[k - 1], y[k]);
      SlopeAdvance(x[k - 1], x[k], y[k - 1], y[k]);
      assert Accumulated(x, y[0], d) == p + [y[k]];
      assert y[..k + 1] == y[..k] + [y[k]];
    } else {
      assert y[..1] == [y[0]];
    }
  }

  /** Round trip: integrating the forward quotients back from y[0] gives the
      series the derivative was taken of. */
  lemma AccumulatedForwardQuotients(x: seq<real>, y: seq<real>)
    requires |x| == |y| && |x| >= 1 && StepsNonZero(x, 1)
    ensures Accumulated(x, y[0], ForwardQuotients(x, y)) == y
  {
    var f := ForwardQuotients(x, y);
    AccumulatedPrefix(x, y, |x| - 1);
    assert f[..|x| - 1] == f;
    assert y[..|x|] == y;
  }

  // ---------------------------------------------------------------------------
  // The pipeline (cleaning, mortality_function)

  /** What cleaning demands of its inputs: a positive bin size and window, a
      survival series at least as long as the time series, and a non-zero
      first survival sample to scale by. */
  predicate CleanInputs(t: seq<real>, s: seq<real>, b: int, m: int) {
    b >= 1 && m >= 1 && |t| <= |s| && (|s| == 0 || s[0] != 0.0)
  }

  /** Normalise, downsample both axes by b (as many bins as the time axis
      gives), then smooth both with a window of m samples. */
  function Cleaned(t: seq<real>, s: seq<real>, b: int, m: int): (c: (seq<real>, seq<real>))
    requires CleanInputs(t, s, b, m)
    ensures |c.0| == |c.1| == WindowCount(|t| / b, m)
  {
    var sScaled := Scaled(s);
    (WindowMeans(Binned(t, b), m), WindowMeans(Binned(sScaled[..|t|], b), m))
  }

  /** With b = 1 and m = 1 cleaning returns the time axis itself and the
      scaled survival series. */
  lemma CleanedIdentity(t: seq<real>, s: seq<real>)
    requires |t| == |s| && (|s| == 0 || s[0] != 0.0)
    ensures Cleaned(t, s, 1, 1) == (t, Scaled(s))
  {
    var sScaled := Scaled(s);
    assert sScaled[..|t|] == sScaled;
    BinnedByOne(t);
    BinnedByOne(sScaled);
    WindowMeansOfOne(t);
    WindowMeansOfOne(sScaled);
  }

  /** Cleaning keeps a strictly increasing time axis strictly increasing, so
      every difference quotient taken on it afterwards is defined. */
  lemma CleanedIncreasing(t: seq<real>, s: seq<real>, b: int, m: int)
    requires CleanInputs(t, s, b, m) && StrictlyIncreasing(t)
    ensures StrictlyIncreasing(Cleaned(t, s, b, m).0)
  {
    BinnedIncreasing(t, b);
    WindowMeansIncreasing(Binned(t, b), m);
  }

  /** -ln applied to every sample; the logarithm is a parameter of the model. */
  function NegLog(s: seq<real>, ln: real -> real): (r: seq<real>)
    ensures |r| == |s|
  {
    seq(|s|, i requires 0 <= i < |s| => -ln(s[i]))
  }

  /** The mortality series: central differences of -ln of the cleaned
      survival series against the cleaned time axis. */
  function MortalityOf(t: seq<real>, s: seq<real>, b: int, m: int, ln: real -> real): (h: (seq<real>, seq<real>))
    requires CleanInputs(t, s, b, m) && StepsNonZero(Cleaned(t, s, b, m).0, 2)
    ensures |h.0| == |h.1|
    ensures |Cleaned(t, s, b, m).0| >= 2 ==> |h.1| == |Cleaned(t, s, b, m).0| - 2
  {
    var c := Cleaned(t, s, b, m);
    (Interior(c.0), CentralQuotients(c.0, NegLog(c.1, ln)))
  }

  /** On a strictly increasing time axis the mortality series is always defined. */
  lemma MortalityDefined(t: seq<real>, s: seq<real>, b: int, m: int)
    requires CleanInputs(t, s, b, m) && StrictlyIncreasing(t)
    ensures StepsNonZero(Cleaned(t, s, b, m).0, 2)
  {
    CleanedIncreasing(t, s, b, m);
    IncreasingStepsNonZero(Cleaned(t, s, b, m).0, 2);
  }

  /** A cleaned survival curve of constant hazard k (-ln S linear in t with
      slope k) gives the mortality k at every interior point. */
  lemma MortalityOfConstantHazard(t: seq<real>, s: seq<real>, b: int, m: int, ln: real -> real, k: real, c0: real)
    requires CleanInputs(t, s, b, m) && StrictlyIncreasing(t)
    requires var c := Cleaned(t, s, b, m);
      forall i :: 0 <= i < |c.1| ==> -ln(c.1[i]) == Line(k, c0, c.0[i])
    ensures StepsNonZero(Cleaned(t, s, b, m).0, 2)
    ensures forall i :: 0 <= i < |MortalityOf(t, s, b, m, ln).1| ==> MortalityOf(t, s, b, m, ln).1[i] == k
  {
    var c := Cleaned(t, s, b, m);
    CleanedIncreasing(t, s, b, m);
    IncreasingStepsNonZero(c.0, 1);
    IncreasingStepsNonZero(c.0, 2);
    QuotientsOfLine(c.0, NegLog(c.1, ln), k, c0);
  }

  // ---------------------------------------------------------------------------
  // Time-to-index lookup (time_index)

  /** The largest sample (`max(t)`). */
  function Max(t: seq<real>): (r: real)
    requires |t| > 0
    ensures forall i :: 0 <= i < |t| ==> t[i] <= r
    ensures exists i :: 0 <= i < |t| && t[i] == r
  {
    if |t| == 1 then
      t[0]
    else
      var p := Max(t[..|t| - 1]);
      assert forall i :: 0 <= i < |t| - 1 ==> t[..|t| - 1][i] == t[i];
      if t[|t| - 1] > p then t[|t| - 1] else p
  }

  /** Interval [t[i], t[i + 1]] contains v. */
  predicate Brackets(t: seq<real>, v: real, i: int)
    ensures Brackets(t, v, i) ==> 0 <= i < |t| - 1 && t[i] <= t[i + 1]
  {
    0 <= i < |t| - 1 && t[i] <= v <= t[i + 1]
  }

  /** Linear scan from index i for the first bracketing interval; 0 when the
      scan ends without one. */
  function FirstBracketFrom(t: seq<real>, v: real, i: nat): (r: nat)
    ensures (exists j :: i <= j && Brackets(t, v, j)) ==>
      i <= r && Brackets(t, v, r) && forall j :: i <= j < r ==> !Brackets(t, v, j)
    ensures (forall j :: i <= j ==> !Brackets(t, v, j)) ==> r == 0
    decreases |t| - i
  {
    if i + 1 >= |t| then 0
    else if Brackets(t, v, i) then i
    else FirstBracketFrom(t, v, i + 1)
  }

  /** time_index: the last index when v lies above every sample, otherwise
      the first interval that brackets v, otherwise 0. */
  function BracketIndex(t: seq<real>, v: real): (r: nat)
    requires |t| > 0
    ensures r < |t|
    ensures (forall i :: 0 <= i < |t| ==> t[i] < v) ==> r == |t| - 1
    ensures (exists i :: 0 <= i < |t| && v <= t[i]) && (exists j :: Brackets(t, v, j)) ==>
      Brackets(t, v, r) && forall j :: 0 <= j < r ==> !Brackets(t, v, j)
    ensures (exists i :: 0 <= i < |t| && v <= t[i]) && (forall j :: !Brackets(t, v, j)) ==> r == 0
  {
    if v > Max(t) then |t| - 1 else FirstBracketFrom(t, v, 0)
  }

  /** Unless v lies above every sample, the result starts an interval of t:
      it is at most n - 2 (for n >= 2), whatever the order of the samples. */
  lemma BracketIndexNotAboveMax(t: seq<real>, v: real)
    requires |t| >= 2 && v <= Max(t)
    ensures BracketIndex(t, v) <= |t| - 2
  {
  }

  /** On a sorted axis, every value between the first and the last sample is
      bracketed by some interval. */
  lemma {:induction false} BracketExists(t: seq<real>, v: real, k: int)
    requires StrictlyIncreasing(t) && 2 <= k <= |t| && t[0] <= v <= t[k - 1]
    ensures exists j :: 0 <= j < k - 1 && Brackets(t, v, j)
  {
    if v <= t[k - 2] && k > 2 {
      BracketExists(t, v, k - 1);
    } else if v <= t[k - 2] {
      assert Brackets(t, v, 0);
    } else {
      assert Brackets(t, v, k - 2);
    }
  }

  /** Any value up to the first sample maps to index 0. */
  lemma BracketIndexAtOrBelowStart(t: seq<real>, v: real)
    requires |t| > 0 && StrictlyIncreasing(t) && v <= t[0]
    ensures BracketIndex(t, v) == 0
  {
  }

  /** On a sorted axis a value inside [t[0], t[n - 1]] maps to an index at most
      n - 2 whose interval brackets it. */
  lemma BracketIndexInRange(t: seq<real>, v: real)
    requires |t| >= 2 && StrictlyIncreasing(t) && t[0] <= v <= t[|t| - 1]
    ensures var r := BracketIndex(t, v);
      r <= |t| - 2 && t[r] <= v <= t[r + 1]
  {
    BracketExists(t, v, |t|);
  }

  /** An exact hit on sample j > 0 maps to j - 1: the first bracket is the
      interval that ends at t[j]. */
  lemma BracketIndexExactHit(t: seq<real>, j: int)
    requires StrictlyIncreasing(t) && 0 < j < |t|
    ensures BracketIndex(t, t[j]) == j - 1
  {
    var v := t[j];
    assert Brackets(t, v, j - 1);
    var r := BracketIndex(t, v);
    assert Brackets(t, v, r);
  }

  /** On a sorted axis the lookup is monotone, so a fit window whose start
      time precedes its end time yields ordered indices. */
  lemma BracketIndexMonotone(t: seq<real>, v: real, w: real)
    requires |t| > 0 && StrictlyIncreasing(t) && v <= w
    ensures BracketIndex(t, v) <= BracketIndex(t, w)
  {
    var n := |t|;
    var rv, rw := BracketIndex(t, v), BracketIndex(t, w);
    if v == w || w > t[n - 1] || v <= t[0] {
      if w > t[n - 1] {
        assert forall i :: 0 <= i < n ==> t[i] < w by {
          forall i | 0 <= i < n ensures t[i] < w {
            assert i == n - 1 || t[i] < t[n - 1];
          }
        }
      } else if v <= t[0] {
        BracketIndexAtOrBelowStart(t, v);
      }
    } else {
      BracketIndexInRange(t, v);
      BracketIndexInRange(t, w);
    }
  }

  /** The lookup on the axis [0, 1, 2, 3, 4]. */
  lemma BracketIndexExamples()
    ensures BracketIndex([0.0, 1.0, 2.0, 3.0, 4.0], 2.5) == 2
    ensures BracketIndex([0.0, 1.0, 2.0, 3.0, 4.0], 10.0) == 4
    ensures BracketIndex([0.0, 1.0, 2.0, 3.0, 4.0], -1.0) == 0
  {
  }
}
