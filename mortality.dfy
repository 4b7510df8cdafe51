/** The `mortality` class of class_mortality.py: a (time, survival) data set
    with its bin size b and moving-average window m, and the loops that
    normalise, downsample, smooth and differentiate it. Each method is proved
    to compute the reference definition of the same step in module Series. */
module MortalityAnalysis {
  import opened Series

  class Mortality {
    /** Sample times, survival samples, 1/b of the samples kept, window size. */
    const t: seq<real>
    const s: seq<real>
    const b: int
    const m: int

    /** Stores the data set and its configuration; nothing is checked here. */
    constructor (t: seq<real>, s: seq<real>, b: int, m: int)
      ensures this.t == t && this.s == s && this.b == b && this.m == m
    {
      this.t := t;
      this.s := s;
      this.b := b;
      this.m := m;
    }

    /** Divides every survival sample by the first one. */
    method Scaling() returns (sScaled: seq<real>)
      requires |s| == 0 || s[0] != 0.0
      ensures sScaled == Scaled(s)
    {
      sScaled := [];
      for i := 0 to |s|
        invariant sScaled == Scaled(s)[..i]
      {
        sScaled := sScaled + [s[i] / s[0]];
      }
    }

    /** Forward differences: x without its last sample, and the slope from
        each sample to the next. */
    method Derivative(x: seq<real>, y: seq<real>) returns (derivativeX: seq<real>, derivativeY: seq<real>)
      requires |x| <= |y| && StepsNonZero(x, 1)
      ensures derivativeX == DropLast(x)
      ensures derivativeY == ForwardQuotients(x, y)
    {
      derivativeX := DropLast(x);
      derivativeY := [];
      var steps := if |x| >= 1 then |x| - 1 else 0;  // range(len(x) - 1)
      for i := 0 to steps
        invariant derivativeY == ForwardQuotients(x, y)[..i]
      {
        derivativeY := derivativeY + [(y[i + 1] - y[i]) / (x[i + 1] - x[i])];
      }
    }

    /** Central differences: x without its first and last samples, and the
        slope from each sample to the one two places further. */
    method DerivativeCentralDifference(x: seq<real>, y: seq<real>) returns (derivativeX: seq<real>, derivativeY: seq<real>)
      requires |x| <= |y| && StepsNonZero(x, 2)
      ensures derivativeX == Interior(x)
      ensures derivativeY == CentralQuotients(x, y)
    {
      derivativeX := Interior(x);
      derivativeY := [];
      var steps := if |x| >= 2 then |x| - 2 else 0;  // range(len(x) - 2)
      for i := 0 to steps
        invariant derivativeY == CentralQuotients(x, y)[..i]
      {
        derivativeY := derivativeY + [(y[i + 2] - y[i]) / (x[i + 2] - x[i])];
      }
    }

    /** Keeps the samples at 0, b, 2b, ... of both series, as many as x gives. */
    method NewBin(x: seq<real>, y: seq<real>, b: int) returns (xBin: seq<real>, yBin: seq<real>)
      requires b >= 1 && |x| <= |y|
      ensures xBin == Binned(x, b)
      ensures yBin == Binned(y[..|x|], b)
    {
      xBin, yBin := [], [];
      for i := 0 to |x| / b
        invariant xBin == Binned(x, b)[..i]
        invariant yBin == Binned(y[..|x|], b)[..i]
      {
        BinIndex(i, |x|, b);
        xBin := xBin + [x[i * b]];
        yBin := yBin + [y[i * b]];
      }
    }

    /** Trailing moving average over m samples: prefix sums, then each prefix
        sum from index m on minus the one m places before it, then the tail
        from index m - 1 divided by m. */
    method MovingAverage(x: seq<real>, m: int) returns (xMoving: seq<real>)
      requires m >= 1
      ensures xMoving == WindowMeans(x, m)
    {
      var n := |x|;
      var c := new real[n];
      var acc := 0.0;
      for j := 0 to n
        invariant acc == Sum(x, 0, j)
        invariant forall k :: 0 <= k < j ==> c[k] == Sum(x, 0, k + 1)
      {
        acc := acc + x[j];
        c[j] := acc;
      }
      // c[m:] = c[m:] - c[:-m] reads the prefix sums before any is overwritten,
      // so the in-place update runs from the last index down.
      var j := n - 1;
      while j >= m
        invariant j <= n - 1 && (m - 1 <= j || j == n - 1)
        invariant forall k :: 0 <= k <= j && k < n ==> c[k] == Sum(x, 0, k + 1)
        invariant forall k :: j < k < n ==> c[k] == Sum(x, k - m + 1, k + 1)
      {
        SumSplit(x, 0, j - m + 1, j + 1);
        c[j] := c[j] - c[j - m];
        j := j - 1;
      }
      if m - 1 <= n {
        forall k | m - 1 <= k < n ensures c[k] == Sum(x, k - m + 1, k + 1) {
          if k == m - 1 {
            assert c[k] == Sum(x, 0, k + 1);
          }
        }
        var tail := c[m - 1..];
        xMoving := seq(|tail|, i requires 0 <= i < |tail| => tail[i] / (m as real));
      } else {
        xMoving := [];
      }
    }

    /** Normalise, downsample time and survival alike, smooth both. */
    method Cleaning() returns (tClean: seq<real>, sClean: seq<real>)
      requires CleanInputs(t, s, b, m)
      ensures (tClean, sClean) == Cleaned(t, s, b, m)
    {
      var sScaled := Scaling();
      var tBin, sBin := NewBin(t, sScaled, b);
      tClean := MovingAverage(tBin, m);
      sClean := MovingAverage(sBin, m);
    }

    /** Mortality: central differences of -ln of the cleaned survival series
        against the cleaned times; `ln` is the natural logarithm. */
    method MortalityFunction(ln: real -> real) returns (mortalityT: seq<real>, mortalityS: seq<real>)
      requires CleanInputs(t, s, b, m) && StepsNonZero(Cleaned(t, s, b, m).0, 2)
      ensures (mortalityT, mortalityS) == MortalityOf(t, s, b, m, ln)
    {
      var tClean, sClean := Cleaning();
      mortalityT, mortalityS := DerivativeCentralDifference(tClean, NegLog(sClean, ln));
    }

    /** The index of tReal in t: the last index above the largest sample,
        else the start of the first interval of t containing tReal, else 0. */
    method TimeIndex(t: seq<real>, tReal: real) returns (tIndex: nat)
      requires |t| > 0
      ensures tIndex == BracketIndex(t, tReal)
    {
      tIndex := 0;
      if tReal > Max(t) {
        tIndex := |t| - 1;
      } else {
        var i := 0;
        while i < |t| - 1
          invariant 0 <= i <= |t| - 1
          invariant tIndex == 0
          invariant FirstBracketFrom(t, tReal, i) == FirstBracketFrom(t, tReal, 0)
        {
          if t[i] <= tReal <= t[i + 1] {
            tIndex := i;
            break;
          }
          i := i + 1;
        }
      }
    }
  }
}
