/** The portfolio statistics of `calculate_portfolio_statistics` (lines
    75-76 and 80-84) and of the strategy functions (lines 119-129, 154-163,
    186-195): the daily portfolio return as a dot product, its mean, and
    beta against the market as `np.cov(...)[0][1] / np.var(...)`. */
module Statistics {
  import opened Wrappers
  import opened Sums
  import opened Frames
  import opened Holdings
  import opened Strategies

  // ---------------------------------------------------------------------
  // Portfolio daily returns
  // ---------------------------------------------------------------------

  /** Line 75: `np.dot(daily_returns.values, weights.reshape(-1, 1))`. The
      weights meet the columns by position; a length that differs from the
      number of columns raises `ValueError`. */
  function PortfolioDailyReturns(f: Frame<real>, weights: seq<real>): (r: Result<seq<real>>)
    requires Rectangular(f)
    ensures r.Err? <==> |weights| != |f.columns|
    ensures r.Err? ==> r.fault == ShapeMismatch
    ensures r.Ok? ==> |r.value| == |f.rows|
    ensures r.Ok? ==> forall i :: 0 <= i < |f.rows| ==> r.value[i] == Dot(f.rows[i].value, weights)
  {
    if |weights| != |f.columns| then Err(ShapeMismatch)
    else Ok(seq(|f.rows|, i requires 0 <= i < |f.rows| => Dot(f.rows[i].value, weights)))
  }

  /** On a day every stock returns the same `c`, weights summing to 1 make
      the portfolio return `c` too. */
  lemma PortfolioOfEqualReturns(f: Frame<real>, weights: seq<real>, i: nat, c: real)
    requires Rectangular(f) && |weights| == |f.columns| && Sum(weights) == 1.0
    requires i < |f.rows| && forall j :: 0 <= j < |f.columns| ==> f.rows[i].value[j] == c
    ensures PortfolioDailyReturns(f, weights).Ok? && PortfolioDailyReturns(f, weights).value[i] == c
  {
    DotConstantRow(f.rows[i].value, weights, c);
  }

  /** All the weight on column `j` makes the portfolio return that column's return. */
  lemma SingleStockPortfolio(f: Frame<real>, weights: seq<real>, j: nat)
    requires Rectangular(f) && |weights| == |f.columns| && j < |weights|
    requires weights[j] == 1.0 && forall l :: 0 <= l < |weights| && l != j ==> weights[l] == 0.0
    ensures PortfolioDailyReturns(f, weights).Ok?
    ensures forall i :: 0 <= i < |f.rows| ==> PortfolioDailyReturns(f, weights).value[i] == f.rows[i].value[j]
  {
    forall i | 0 <= i < |f.rows| ensures PortfolioDailyReturns(f, weights).value[i] == f.rows[i].value[j] {
      DotSingleWeight(f.rows[i].value, weights, j);
    }
  }

  // ---------------------------------------------------------------------
  // Mean, variance, covariance
  // ---------------------------------------------------------------------

  function Average(xs: seq<real>): real
    requires xs != []
  {
    Sum(xs) / (|xs| as real)
  }

  /** Line 76: `np.mean`; the mean of nothing is `nan`. */
  function Mean(xs: seq<real>): (r: Result<real>)
    ensures r.Ok? <==> xs != []
    ensures r.Err? ==> r.fault == NotFinite
    ensures r.Ok? ==> r.value * (|xs| as real) == Sum(xs)
  {
    if xs == [] then Err(NotFinite)
    else
      Rescale(Sum(xs), |xs| as real);
      Ok(Average(xs))
  }

  /** The mean lies between the smallest and the largest daily return. */
  lemma MeanBounds(xs: seq<real>, lo: real, hi: real)
    requires xs != [] && forall i :: 0 <= i < |xs| ==> lo <= xs[i] <= hi
    ensures Mean(xs).Ok? && lo <= Mean(xs).value <= hi
  {
    SumBounds(xs, lo, hi);
    DivideBounds(Sum(xs), |xs| as real, lo, hi);
  }

  lemma DivideBounds(s: real, n: real, lo: real, hi: real)
    requires n > 0.0 && n * lo <= s <= n * hi
    ensures lo <= s / n <= hi
  {
  }

  function Deviations(xs: seq<real>): (d: seq<real>)
    requires xs != []
    ensures |d| == |xs|
  {
    seq(|xs|, i requires 0 <= i < |xs| => xs[i] - Average(xs))
  }

  function Products(a: seq<real>, b: seq<real>): seq<real>
    requires |a| == |b|
  {
    seq(|a|, i requires 0 <= i < |a| => a[i] * b[i])
  }

  /** The sum of squared deviations from the mean. */
  function SquaredDeviations(xs: seq<real>): real
    requires xs != []
  {
    Sum(Products(Deviations(xs), Deviations(xs)))
  }

  /** The sum of cross products of deviations from the two means. */
  function CrossDeviations(p: seq<real>, m: seq<real>): real
    requires p != [] && |p| == |m|
  {
    Sum(Products(Deviations(p), Deviations(m)))
  }

  lemma {:induction false} SumOfSquaresNonNegative(d: seq<real>)
    ensures Sum(Products(d, d)) >= 0.0
    decreases |d|
  {
    if d != [] {
      var n := |d|;
      var init := d[..n - 1];
      forall i | 0 <= i < n - 1 ensures Products(d, d)[..n - 1][i] == Products(init, init)[i] {
        assert init[i] == d[i];
      }
      assert Products(d, d)[..n - 1] == Products(init, init);
      SumOfSquaresNonNegative(init);
      assert d[n - 1] * d[n - 1] >= 0.0;
    }
  }

  /** `np.var` with NumPy's default `ddof=0`: divide by n. */
  function PopVariance(xs: seq<real>): (r: Result<real>)
    ensures r.Ok? <==> xs != []
    ensures r.Err? ==> r.fault == NotFinite
  {
    if xs == [] then Err(NotFinite) else Ok(SquaredDeviations(xs) / (|xs| as real))
  }

  /** The `ddof=1` variance, the divisor `np.cov` uses: divide by n - 1. */
  function SampleVariance(xs: seq<real>): (r: Result<real>)
    ensures r.Ok? <==> |xs| >= 2
    ensures r.Err? ==> r.fault == NotFinite
  {
    if |xs| < 2 then Err(NotFinite) else Ok(SquaredDeviations(xs) / ((|xs| - 1) as real))
  }

  /** A variance is never negative. */
  lemma PopVarianceNonNegative(xs: seq<real>)
    requires xs != []
    ensures PopVariance(xs).Ok? && PopVariance(xs).value >= 0.0
  {
    SumOfSquaresNonNegative(Deviations(xs));
    NonNegativeQuotient(SquaredDeviations(xs), |xs| as real);
  }

  lemma NonNegativeQuotient(a: real, n: real)
    requires a >= 0.0 && n > 0.0
    ensures a / n >= 0.0
  {
  }

  /** `np.cov(p, m)[0][1]`: the `ddof=1` covariance. Series of different
      lengths raise `ValueError`; with fewer than two observations NumPy
      divides by a non-positive count and returns `nan`. */
  function SampleCovariance(p: seq<real>, m: seq<real>): (r: Result<real>)
    ensures r.Err? && r.fault == ShapeMismatch <==> |p| != |m|
    ensures r.Ok? <==> |p| == |m| && |p| >= 2
    ensures r.Err? ==> r.fault == ShapeMismatch || r.fault == NotFinite
  {
    if |p| != |m| then Err(ShapeMismatch)
    else if |p| < 2 then Err(NotFinite)
    else Ok(CrossDeviations(p, m) / ((|p| - 1) as real))
  }

  // ---------------------------------------------------------------------
  // Beta
  // ---------------------------------------------------------------------

  /** Line 84 as written: the `ddof=1` covariance over the `ddof=0`
      variance. A zero market variance does not raise: NumPy's float
      division gives `inf` or `nan`. */
  function BetaAsWritten(p: seq<real>, m: seq<real>): (r: Result<real>)
    ensures r.Err? && r.fault == ShapeMismatch <==> |p| != |m|
    ensures r.Ok? <==> |p| == |m| && |p| >= 2 && SquaredDeviations(m) != 0.0
    ensures r.Err? ==> r.fault == ShapeMismatch || r.fault == NotFinite
  {
    match SampleCovariance(p, m)
    case Err(e) => Err(e)
    case Ok(cov) =>
      var v := PopVariance(m).value;
      if v == 0.0 then Err(NotFinite)
      else
        NonZeroQuotient(SquaredDeviations(m), |m| as real);
        Ok(cov / v)
  }

  lemma NonZeroQuotient(a: real, n: real)
    requires n > 0.0
    ensures a / n == 0.0 <==> a == 0.0
  {
    if a / n == 0.0 {
      Rescale(a, n);
    }
  }

  /** Beta with one divisor for both moments: covariance over variance,
      both with `ddof=1`. */
  function SampleBeta(p: seq<real>, m: seq<real>): (r: Result<real>)
    ensures r.Err? && r.fault == ShapeMismatch <==> |p| != |m|
    ensures r.Ok? <==> |p| == |m| && |p| >= 2 && SquaredDeviations(m) != 0.0
    ensures r.Err? ==> r.fault == ShapeMismatch || r.fault == NotFinite
  {
    match SampleCovariance(p, m)
    case Err(e) => Err(e)
    case Ok(cov) =>
      var v := SampleVariance(m).value;
      if v == 0.0 then Err(NotFinite)
      else
        NonZeroQuotient(SquaredDeviations(m), (|m| - 1) as real);
        Ok(cov / v)
  }

  /** The beta of line 84 is the one-divisor beta inflated by n / (n - 1). */
  lemma BetaAsWrittenIsInflated(p: seq<real>, m: seq<real>)
    requires SampleBeta(p, m).Ok?
    ensures BetaAsWritten(p, m).Ok?
    ensures BetaAsWritten(p, m).value == SampleBeta(p, m).value * ((|m| as real) / ((|m| - 1) as real))
  {
    var n := |m| as real;
    InflatedQuotient(CrossDeviations(p, m), SquaredDeviations(m), n);
  }

  lemma InflatedQuotient(a: real, b: real, n: real)
    requires b != 0.0 && n > 1.0
    ensures (a / (n - 1.0)) / (b / n) == ((a / (n - 1.0)) / (b / (n - 1.0))) * (n / (n - 1.0))
  {
    var d := n - 1.0;
    assert (a / d) / (b / d) == a / b;
    assert (a / d) / (b / n) == (a * n) / (b * d);
  }

  /** When the portfolio moves as k times the market plus a constant, the
      one-divisor beta recovers k. */
  lemma SampleBetaOfAffine(p: seq<real>, m: seq<real>, k: real, c: real)
    requires |p| == |m| >= 2 && SquaredDeviations(m) != 0.0
    requires forall i :: 0 <= i < |m| ==> p[i] == k * m[i] + c
    ensures SampleBeta(p, m) == Ok(k)
  {
    CrossOfAffine(p, m, k, c, CrossDeviations(p, m), SquaredDeviations(m));
    RatioOfScaled(CrossDeviations(p, m), SquaredDeviations(m), k, (|m| - 1) as real);
  }

  lemma AverageOfAffine(p: seq<real>, m: seq<real>, k: real, c: real)
    requires |p| == |m| && m != []
    requires forall i :: 0 <= i < |m| ==> p[i] == k * m[i] + c
    ensures Average(p) == k * Average(m) + c
  {
    SumAffine(m, p, k, c);
    AffineAverage(Sum(m), Sum(p), |m| as real, k, c);
  }

  lemma CrossOfAffine(p: seq<real>, m: seq<real>, k: real, c: real, cross: real, squares: real)
    requires |p| == |m| && m != []
    requires forall i :: 0 <= i < |m| ==> p[i] == k * m[i] + c
    requires cross == CrossDeviations(p, m) && squares == SquaredDeviations(m)
    ensures cross == k * squares
  {
    var dp, dm := Deviations(p), Deviations(m);
    DeviationsOfAffine(p, m, k, c, dp, dm);
    var sq, cp := Products(dm, dm), Products(dp, dm);
    ScaledProducts(dp, dm, k, sq, cp);
    SumScaled(sq, k, cp);
  }

  lemma DeviationsOfAffine(p: seq<real>, m: seq<real>, k: real, c: real, dp: seq<real>, dm: seq<real>)
    requires |p| == |m| && m != []
    requires forall i :: 0 <= i < |m| ==> p[i] == k * m[i] + c
    requires dp == Deviations(p) && dm == Deviations(m)
    ensures |dp| == |dm| == |m| && forall i :: 0 <= i < |m| ==> dp[i] == k * dm[i]
  {
    AverageOfAffine(p, m, k, c);
    forall i | 0 <= i < |m| ensures dp[i] == k * dm[i] {
      AffineDeviation(p[i], m[i], Average(p), Average(m), k, c);
    }
  }

  lemma ScaledProducts(dp: seq<real>, dm: seq<real>, k: real, sq: seq<real>, cp: seq<real>)
    requires |dp| == |dm| && forall i :: 0 <= i < |dm| ==> dp[i] == k * dm[i]
    requires sq == Products(dm, dm) && cp == Products(dp, dm)
    ensures |sq| == |cp| && forall i :: 0 <= i < |sq| ==> cp[i] == sq[i] * k
  {
    forall i | 0 <= i < |sq| ensures cp[i] == sq[i] * k {
      ScaledSquare(dp[i], dm[i], k);
    }
  }

  lemma ScaledSquare(x: real, y: real, k: real)
    requires x == k * y
    ensures x * y == y * y * k
  {
  }

  lemma AffineAverage(sm: real, sp: real, n: real, k: real, c: real)
    requires n > 0.0 && sp == k * sm + n * c
    ensures sp / n == k * (sm / n) + c
  {
    assert sp / n == (k * sm) / n + (n * c) / n;
  }

  lemma AffineDeviation(pi: real, mi: real, ap: real, am: real, k: real, c: real)
    requires pi == k * mi + c && ap == k * am + c
    ensures pi - ap == k * (mi - am)
  {
  }

  lemma RatioOfScaled(a: real, b: real, k: real, d: real)
    requires b != 0.0 && d > 0.0 && a == k * b
    ensures (a / d) / (b / d) == k
  {
    assert (a / d) / (b / d) == a / b;
  }

  /** The pair behind the divisor finding: a portfolio that is the market
      itself, over two days, has beta 1, while line 84 reports 2. */
  lemma MarketItselfHasBetaTwoAsWritten()
    ensures SampleBeta([0.0, 1.0], [0.0, 1.0]) == Ok(1.0)
    ensures BetaAsWritten([0.0, 1.0], [0.0, 1.0]) == Ok(2.0)
  {
    var m := [0.0, 1.0];
    assert Sum(m) == Sum(m[..1]) + 1.0;
    assert Sum(m[..1]) == Sum(m[..1][..0]) + 0.0;
    assert Average(m) == 0.5;
    var d := Deviations(m);
    assert d == [-0.5, 0.5];
    var sq := Products(d, d);
    assert sq == [0.25, 0.25];
    assert Sum(sq) == Sum(sq[..1]) + 0.25;
    assert Sum(sq[..1]) == Sum(sq[..1][..0]) + 0.25;
    assert SquaredDeviations(m) == 0.5;
    SampleBetaOfAffine(m, m, 1.0, 0.0);
    BetaAsWrittenIsInflated(m, m);
  }

  /** A market that never moves has no beta: the variance is zero. */
  lemma FlatMarketHasNoBeta(p: seq<real>, m: seq<real>, c: real)
    requires |p| == |m| >= 2 && forall i :: 0 <= i < |m| ==> m[i] == c
    ensures BetaAsWritten(p, m) == Err(NotFinite)
  {
    SumAffine(m, m, 0.0, c);
    assert Sum(m) == (|m| as real) * c;
    Rescale(c, |m| as real);
    assert Average(m) == c;
    var d := Deviations(m);
    forall i | 0 <= i < |m| ensures Products(d, d)[i] == 0.0 {
      assert d[i] == 0.0;
    }
    SumAffine(Products(d, d), Products(d, d), 0.0, 0.0);
  }

  // ---------------------------------------------------------------------
  // The statistics of a weighted portfolio
  // ---------------------------------------------------------------------

  /** What a statistics call returns besides risk and the Sharpe ratio: a
      `nan` mean or beta is reported, not raised. */
  datatype Performance = Performance(meanReturn: Result<real>, beta: Result<real>)

  /** Lines 75-76 and 80-84: the portfolio's daily returns over the return
      frame, their mean, and the beta of those returns against the market on
      the dates both have (line 82 keeps the market on the portfolio's
      dates, line 83 keeps the portfolio on the market's). */
  function PortfolioStatistics(f: Frame<real>, weights: seq<real>, market: Series<real>): (r: Result<Performance>)
    requires Rectangular(f)
    ensures r.Err? <==> |weights| != |f.columns|
    ensures r.Err? ==> r.fault == ShapeMismatch
    ensures r.Ok? ==> r.value.meanReturn == Mean(PortfolioDailyReturns(f, weights).value)
    ensures r.Ok? ==> (r.value.meanReturn.Ok? <==> f.rows != [])
    ensures r.Ok? ==> (r.value.beta.Ok? ==> |Dates(MarketOn(f.rows, market))| >= 2)
  {
    match PortfolioDailyReturns(f, weights)
    case Err(e) => Err(e)
    case Ok(daily) =>
      var aligned := Align(Zip(Dates(f.rows), daily), market);
      assert Dates(Zip(Dates(f.rows), daily)) == Dates(f.rows);
      assert |aligned.1| == |Dates(aligned.1)|;
      Ok(Performance(Mean(daily), BetaAsWritten(Values(aligned.0), Values(aligned.1))))
  }

  /** For increasing indexes, beta is taken over exactly the portfolio dates
      the market also has, in the portfolio's order, with neither the
      portfolio's nor the market's returns changed or reordered. */
  lemma PortfolioBetaOverCommonDates(f: Frame<real>, weights: seq<real>, market: Series<real>)
    requires Rectangular(f) && |weights| == |f.columns|
    requires Increasing(Dates(f.rows)) && Increasing(Dates(market))
    ensures PortfolioStatistics(f, weights, market).Ok?
    ensures exists p: Series<real>, m: Series<real> ::
      PortfolioStatistics(f, weights, market).value.beta == BetaAsWritten(Values(p), Values(m)) &&
      Dates(p) == Dates(m) &&
      (forall d :: d in Dates(p) <==> d in Dates(f.rows) && d in Dates(market)) &&
      Subseq(p, Zip(Dates(f.rows), PortfolioDailyReturns(f, weights).value)) &&
      Subseq(m, market)
  {
    var daily := PortfolioDailyReturns(f, weights).value;
    var s := Zip(Dates(f.rows), daily);
    AlignKeepsCommonDates(s, market);
    var a := Align(s, market);
    assert PortfolioStatistics(f, weights, market).value.beta == BetaAsWritten(Values(a.0), Values(a.1));
  }

  /** When the market has a return on every portfolio date, as it does once
      `update_data` has aligned them, beta is taken over every day of the
      portfolio's returns: the second alignment in the strategy functions
      (lines 127-128, 161-162, 193-194) drops nothing. */
  lemma StatisticsOfAlignedReturns(f: Frame<real>, weights: seq<real>, market: Series<real>)
    requires Rectangular(f) && |weights| == |f.columns|
    requires Increasing(Dates(f.rows)) && forall d :: d in Dates(f.rows) ==> d in Dates(market)
    ensures PortfolioStatistics(f, weights, market).Ok?
    ensures Loc(market, Dates(f.rows)).Some?
    ensures PortfolioStatistics(f, weights, market).value.beta ==
      BetaAsWritten(PortfolioDailyReturns(f, weights).value, Values(Loc(market, Dates(f.rows)).value))
    ensures PortfolioStatistics(f, weights, market).value.meanReturn == Mean(PortfolioDailyReturns(f, weights).value)
  {
    var daily := PortfolioDailyReturns(f, weights).value;
    var s := Zip(Dates(f.rows), daily);
    AlignWithinMarket(s, market);
    assert Values(s) == daily;
  }

  /** On aligned returns the reported beta is the one-divisor beta of the
      portfolio against the market, inflated by n / (n - 1). */
  lemma AlignedBetaIsInflated(f: Frame<real>, weights: seq<real>, market: Series<real>)
    requires Rectangular(f) && |weights| == |f.columns|
    requires Increasing(Dates(f.rows)) && forall d :: d in Dates(f.rows) ==> d in Dates(market)
    requires SampleBeta(PortfolioDailyReturns(f, weights).value, Values(Loc(market, Dates(f.rows)).value)).Ok?
    ensures PortfolioStatistics(f, weights, market).Ok?
    ensures PortfolioStatistics(f, weights, market).value.beta.Ok?
    ensures PortfolioStatistics(f, weights, market).value.beta.value ==
      Inflated(SampleBeta(PortfolioDailyReturns(f, weights).value, Values(Loc(market, Dates(f.rows)).value)).value, |f.rows|)
  {
    var daily, m := PortfolioDailyReturns(f, weights).value, Values(Loc(market, Dates(f.rows)).value);
    var r := PortfolioStatistics(f, weights, market);
    assert r.Ok? && r.value.beta == BetaAsWritten(daily, m) by {
      StatisticsOfAlignedReturns(f, weights, market);
    }
    assert |m| == |f.rows| by {
      assert |m| == |Dates(Loc(market, Dates(f.rows)).value)|;
    }
    InflatedBeta(daily, m, r.value.beta, |f.rows|);
  }

  lemma InflatedBeta(p: seq<real>, m: seq<real>, beta: Result<real>, n: nat)
    requires SampleBeta(p, m).Ok? && beta == BetaAsWritten(p, m) && n == |m|
    ensures n >= 2 && beta.Ok? && beta.value == Inflated(SampleBeta(p, m).value, n)
  {
    BetaAsWrittenIsInflated(p, m);
  }

  /** `b` inflated by the factor n / (n - 1), as line 84 inflates beta. */
  function Inflated(b: real, n: nat): real
    requires n >= 2
  {
    b * ((n as real) / ((n - 1) as real))
  }

  // ---------------------------------------------------------------------
  // Weights matched to columns by label
  // ---------------------------------------------------------------------

  /** The weights rearranged into the frame's column order: column `c` gets
      the weight computed for `c`. A column without a weight is a `KeyError`. */
  function WeightsInColumnOrder(columns: seq<Symbol>, labels: seq<Symbol>, weights: seq<real>): (r: Result<seq<real>>)
    requires |labels| == |weights|
    ensures r.Ok? <==> forall c :: c in columns ==> c in labels
    ensures r.Err? ==> r.fault.KeyError? && r.fault.key in columns && r.fault.key !in labels
    ensures r.Ok? ==> |r.value| == |columns|
    ensures r.Ok? ==> forall j :: 0 <= j < |columns| ==> r.value[j] == weights[IndexOf(labels, columns[j])]
  {
    match FirstMissing(labels, columns)
    case Some(c) => Err(KeyError(c))
    case None => Ok(seq(|columns|, j requires 0 <= j < |columns| => weights[IndexOf(labels, columns[j])]))
  }

  /** The dot product the strategy functions evidently mean (lines 120, 155,
      187): each column's returns weighted by that stock's own weight. */
  function LabelledPortfolioDailyReturns(f: Frame<real>, labels: seq<Symbol>, weights: seq<real>): (r: Result<seq<real>>)
    requires Rectangular(f) && |labels| == |weights|
    ensures r.Err? <==> exists c :: c in f.columns && c !in labels
    ensures r.Ok? ==> |r.value| == |f.rows|
    ensures r.Ok? ==> forall i :: 0 <= i < |f.rows| ==>
      r.value[i] == Dot(f.rows[i].value, WeightsInColumnOrder(f.columns, labels, weights).value)
  {
    match WeightsInColumnOrder(f.columns, labels, weights)
    case Err(e) => Err(e)
    case Ok(w) => PortfolioDailyReturns(f, w)
  }

  /** When the weights were computed over the frame's own columns, in its
      order, the positional dot product is the labelled one. */
  lemma PositionalMatchesLabelledWhenColumnsAgree(f: Frame<real>, weights: seq<real>)
    requires Rectangular(f) && |weights| == |f.columns| && Distinct(f.columns)
    ensures LabelledPortfolioDailyReturns(f, f.columns, weights) == PortfolioDailyReturns(f, weights)
  {
    var w := WeightsInColumnOrder(f.columns, f.columns, weights).value;
    forall j | 0 <= j < |f.columns| ensures w[j] == weights[j] {
      DistinctIndexOf(f.columns, j);
    }
    assert w == weights;
  }

  /** Weights computed over `[B, A]` dotted against a frame whose columns are
      `[A, B]`: B's whole weight lands on A's return. */
  lemma PositionalDotSwapsStocks()
    ensures PortfolioDailyReturns(Frame(["A", "B"], [Entry(1, [1.0, 0.0])]), [1.0, 0.0]) == Ok([1.0])
    ensures LabelledPortfolioDailyReturns(Frame(["A", "B"], [Entry(1, [1.0, 0.0])]), ["B", "A"], [1.0, 0.0]) == Ok([0.0])
  {
    var f := Frame(["A", "B"], [Entry(1, [1.0, 0.0])]);
    var row := [1.0, 0.0];
    assert Dot(row, [1.0, 0.0]) == Dot(row[..1], [1.0]) + 0.0;
    assert Dot(row[..1], [1.0]) == Dot([], []) + 1.0 by { assert row[..1][..0] == []; }
    assert PortfolioDailyReturns(f, [1.0, 0.0]).value == [1.0];
    assert IndexOf(["B", "A"], "A") == 1 && IndexOf(["B", "A"], "B") == 0;
    assert "A" in ["B", "A"] && "B" in ["B", "A"];
    assert FirstMissing(["B", "A"], ["A", "B"]) == None;
    var w := WeightsInColumnOrder(["A", "B"], ["B", "A"], [1.0, 0.0]).value;
    assert w[0] == 0.0 && w[1] == 1.0;
    assert w == [0.0, 1.0];
    assert Dot(row, [0.0, 1.0]) == Dot(row[..1], [0.0]) + 0.0;
    assert Dot(row[..1], [0.0]) == Dot([], []) + 0.0 by { assert row[..1][..0] == []; }
    assert PortfolioDailyReturns(f, w).value == [0.0];
  }
}
