# Portfolio manager: a Dafny model of its analytics core

`Portfoliomanager1.py` builds a stock portfolio from a list of buy
transactions `(stock, date, quantity, amount_invested)`. It downloads
prices, computes daily returns, and derives a mean daily return, a risk, a
Sharpe ratio and a beta against the S&P 500. It also proposes new weights
under three strategies (most-diversified, equal-weight, return-weighted)
and splits the money invested according to those weights.

This project models the exact bookkeeping and arithmetic under the pandas
and NumPy calls, in exact rational arithmetic (`real`):

- **Wrappers** (`wrappers.dfy`): `Option`, `Result`, and the faults the
  source can meet.
  - `KeyError`, `ZeroDivision` and `ShapeMismatch` are raised; the program
    stops.
  - `NotFinite` is a NumPy `inf`/`nan` result, which is returned, not
    raised.
- **Sums** (`sums.dfy`): left-to-right sums and dot products, with their
  algebra.
- **Frames** (`frames.dfy`): a series is a sequence of `(date, value)`
  entries; a frame is a list of column labels plus dated rows. The module
  models:
  - `pct_change` with pandas' forward fill;
  - `dropna`, `reindex` and `.loc`;
  - the alignment of the stock returns with the market returns in
    `update_data` (lines 40-45) and in lines 80-83.
- **Holdings** (`holdings.dfy`): the invested-amount loop (lines 64-69),
  the total (line 71) and the current weights (line 73).
- **Strategies** (`strategies.dfy`): the equal-weight fill loop of
  `EWP_inner` (lines 137-141) and the return-weighted normalisation of the
  inner `RWP` (lines 171-173).
- **Allocation** (`allocation.dfy`): `calculate_investments`
  (lines 200-204).
- **Statistics** (`statistics.dfy`): the portfolio's daily returns as
  row·weights (line 75), their mean (line 76), and beta as
  `np.cov(p, m)[0][1] / np.var(m)` (line 84). That expression divides a
  covariance taken with divisor n−1 by a variance taken with divisor n.

The two imperative parts of the source are Dafny methods with loops:
- the dictionary accumulation of lines 64-69 (`Holdings.InvestedAmounts`);
- the in-place fill of a NumPy array in `EWP_inner` (`Strategies.EqualWeights`).

Everything else is functions and lemmas.

Column orders are explicit parameters throughout. The weight vectors of the
strategies follow `selected_stocks`, which is built from a set. The return
table and the price index follow the order the data source returns. The
model never assumes that these orders agree.

Three behaviours of the code are worth knowing before reading the model:
- **Beta against a scaled benchmark is not the scale.** Against a market
  twice the instrument, line 84 gives cov(p, 2p)/var(2p), that is
  ½ · n/(n−1), not 2.0. `Statistics.SampleBetaOfAffine` (with k = ½) and
  `Statistics.BetaAsWrittenIsInflated` state both factors.
- **Division by zero does not raise.** A zero market variance (line 84) and
  a zero grand total of selected returns (line 172) are NumPy/pandas float
  divisions that give `inf`/`nan` without raising, so the model returns
  `Err(NotFinite)` for them.
- **No input validation.** The code accepts an empty transaction list and
  non-positive amounts without complaint, and the model does the same.

## Model

| member | source | states |
|---|---|---|
| Holdings.InvestedAmounts | Portfoliomanager1.py:64-69 | After the loop the dictionary's keys are exactly the stocks named in the transactions; each value is the sum of that stock's `amount_invested`; the insertion order lists each key once |
| Holdings.TotalInvestedIsTotalAmount | Portfoliomanager1.py:71 | Summing the dictionary's values in insertion order gives the sum of all transaction amounts |
| Holdings.AmountsOverAllStocks | Portfoliomanager1.py:71 | Per-stock amounts summed over distinct keys that cover every stock give the amount of all transactions |
| Holdings.CurrentWeights | Portfoliomanager1.py:73 | The weights exist exactly when every column is a key and, if there is a column, the total is nonzero; weight i is invested[column i] / total; a missing column is a `KeyError` naming it; a zero total is `ZeroDivisionError` |
| Holdings.WeightsTimesTotal | Portfoliomanager1.py:73 | Total times the sum of the weights is the sum of the columns' invested amounts |
| Holdings.CurrentWeightsSumToOne | Portfoliomanager1.py:71-73 | If the columns are exactly the transaction stocks and the total is nonzero, the weights exist and sum to 1 |
| Frames.LastSeenIsLatest | Portfoliomanager1.py:40 | The forward-filled value at t is the latest observation at or before t, and it exists exactly when something was observed by t |
| Frames.PctChange | Portfoliomanager1.py:40 | The change series has the same dates as the prices |
| Frames.DailyReturnsOfCompletePrices | Portfoliomanager1.py:40 | With every price present and nonzero, `pct_change().dropna()` has one entry fewer than the prices, dated by the later day, with r = p_t / p_{t-1} − 1 |
| Frames.ReturnsCompoundPrices | Portfoliomanager1.py:40 | Under the same conditions, p_t = p_{t-1} · (1 + r_t) for every return |
| Frames.FrameReturnsOfCompletePrices | Portfoliomanager1.py:40 | The frame form: one row fewer, each cell p_t / p_{t-1} − 1 for its own column |
| Frames.GapGivesZeroReturn | Portfoliomanager1.py:40 | A missing price after a known nonzero one repeats it, so that day's return is 0 |
| Frames.Complete | Portfoliomanager1.py:40 | A row is kept by `dropna` exactly when none of its cells is missing, with its values unchanged |
| Frames.DropMissing | Portfoliomanager1.py:42 | `Series.dropna()` keeps exactly the entries that carry a value, unwrapped, and never adds one |
| Frames.DropMissingRows | Portfoliomanager1.py:40 | `DataFrame.dropna()` keeps the columns and the row width; a row is kept, with its date and values, exactly when none of its cells is missing; the kept dates are a subsequence of the frame's, in order |
| Frames.DropMissingKeepsOrder | Portfoliomanager1.py:42 | `dropna` keeps a subsequence of the dates, in order |
| Frames.Lookup | Portfoliomanager1.py:44 | A date is found exactly when the series has it, and the value found is that entry's value |
| Frames.Reindex | Portfoliomanager1.py:44 | `reindex` gives one entry per requested date, in the requested order |
| Frames.Loc | Portfoliomanager1.py:45 | `.loc` succeeds exactly when every requested date is present, and returns the requested dates in order |
| Frames.Align | Portfoliomanager1.py:44-45 | After the two cuts the stock series and the market series carry the same dates |
| Frames.AlignKeepsCommonDates | Portfoliomanager1.py:44-45 | For increasing indexes: the retained dates are exactly the stock dates the market also has, in the stock order; both series are subsequences of their originals, so no value changes |
| Frames.AlignWithinMarket | Portfoliomanager1.py:127-128 | For an increasing index all of whose dates the market has: alignment keeps the whole series and pairs it with the market's values at those dates, in the series' order |
| Frames.UpdateData | Portfoliomanager1.py:40-45 | `update_data` returns a frame with the price frame's columns, rows of full width, and the same dates as the market returns |
| Frames.UpdateDataAligns | Portfoliomanager1.py:40-45 | For increasing price indexes: the returned frame and market series are subsequences of the unaligned returns; their dates are exactly the dates both have; those dates are increasing |
| Strategies.EqualWeights | Portfoliomanager1.py:137-141 | The fill loop succeeds exactly when every selected stock is a column, and then gives 1/len(selected) on every column labelled with a selected stock and 0 elsewhere; otherwise it is a `KeyError` for the first selected stock that is not a column |
| Strategies.EqualWeightEntries | Portfoliomanager1.py:140 | A selected column's weight times len(selected) is 1; an unselected column's weight is 0 |
| Strategies.EqualWeightsSumToOne | Portfoliomanager1.py:137-141 | With distinct selected stocks, all of them among distinct columns, the equal weights sum to 1 |
| Strategies.FirstMissing | Portfoliomanager1.py:172 | The first selected name that is not a column, and none exactly when all are columns |
| Strategies.ReturnWeights | Portfoliomanager1.py:172 | The rule gives:<br>• `KeyError` exactly when a selected name is not a column;<br>• `inf`/`nan` exactly when the names are present, nonempty, and the grand total is zero;<br>• otherwise one weight per selected name. |
| Strategies.ReturnWeightsProportional | Portfoliomanager1.py:172 | Weight i times the grand total is column i's summed returns |
| Strategies.ReturnWeightsSumToOne | Portfoliomanager1.py:170-172 | The return weights sum to 1 |
| Strategies.ReturnWeightsUnbounded | Portfoliomanager1.py:172 | Column sums 2 and −1 give weights 2 and −1: nothing bounds them to [0, 1] |
| Allocation.ZipMap | Portfoliomanager1.py:202 | The dict comprehension over `zip` has exactly the zipped keys, each with the value of its last pairing |
| Allocation.SplitByPosition | Portfoliomanager1.py:202 | The keys are the first min(len(prices), len(weights)) price symbols; with distinct symbols, symbol i gets weights[i] × the total; the prices are never read |
| Allocation.Investments | Portfoliomanager1.py:200-204 | `calculate_investments` has exactly the keys that `zip` pairs (the first min(len(prices), len(weights)) price symbols). |
| Allocation.InvestmentsSumToTotal | Portfoliomanager1.py:201-202 | With distinct symbols, equal lengths and weights summing to 1, the amounts sum to the total invested |
| Allocation.SplitByLabel | Portfoliomanager1.py:202 | Corrected split: each priced stock gets the weight computed for that stock, found by label, times the total; a priced stock without a weight is a `KeyError` naming it |
| Allocation.LabelledInvestments | Portfoliomanager1.py:200-204 | The corrected `calculate_investments` succeeds exactly when every priced stock has a weight, and then has exactly the priced stocks as keys |
| Allocation.PositionalMatchesLabelledWhenOrdersAgree | Portfoliomanager1.py:202 | When the price index lists the weights' own distinct labels in order, the positional split equals the labelled one |
| Allocation.PositionalSplitSwapsStocks | Portfoliomanager1.py:202 | Weights [1, 0] over [B, A] with prices indexed [A, B]: line 202 gives A the whole total, the labelled split gives it to B |
| Statistics.PortfolioDailyReturns | Portfoliomanager1.py:75 | `np.dot` raises exactly when the weight count differs from the column count; otherwise one return per day, each being row·weights |
| Statistics.PortfolioOfEqualReturns | Portfoliomanager1.py:75 | On a day every stock returns c, weights summing to 1 give the portfolio return c |
| Statistics.SingleStockPortfolio | Portfoliomanager1.py:75 | All weight on column j makes the portfolio's return column j's return every day |
| Statistics.Mean | Portfoliomanager1.py:76 | The mean exists exactly for a nonempty series, and the mean times n is the sum |
| Statistics.MeanBounds | Portfoliomanager1.py:76 | The mean lies within any bounds that hold for every daily return |
| Statistics.PopVariance | Portfoliomanager1.py:84 | `np.var` (divisor n) is defined exactly for a nonempty series |
| Statistics.PopVarianceNonNegative | Portfoliomanager1.py:84 | That variance is never negative |
| Statistics.SampleCovariance | Portfoliomanager1.py:84 | `np.cov(...)[0][1]` raises exactly on series of different lengths and is defined exactly for equal lengths of at least 2 |
| Statistics.BetaAsWritten | Portfoliomanager1.py:84 | Line 84 raises exactly on different lengths; it is finite exactly for equal lengths of at least 2 and a market that moves; otherwise it is `inf`/`nan` |
| Statistics.SampleBeta | Portfoliomanager1.py:84 | Corrected beta (one divisor for both moments): same domain as line 84 |
| Statistics.BetaAsWrittenIsInflated | Portfoliomanager1.py:84 | Line 84's beta is the one-divisor beta times n/(n−1) |
| Statistics.SampleBetaOfAffine | Portfoliomanager1.py:84 | A portfolio that moves as k · market + c has one-divisor beta k |
| Statistics.MarketItselfHasBetaTwoAsWritten | Portfoliomanager1.py:84 | Portfolio = market = [0, 1]: one-divisor beta 1, line 84 gives 2 |
| Statistics.FlatMarketHasNoBeta | Portfoliomanager1.py:84 | A market with the same return every day gives a `nan`/`inf` beta |
| Statistics.PortfolioStatistics | Portfoliomanager1.py:75-84 | Lines 75-84 raise exactly when the weight count is wrong. Otherwise the mean is the mean of the portfolio's daily returns, defined exactly when there are return days, and beta can be finite only when at least two of those days have a market return |
| Statistics.PortfolioBetaOverCommonDates | Portfoliomanager1.py:80-84 | For increasing indexes, beta is line 84's formula over exactly the portfolio dates the market also has, in the portfolio's order, with neither series' returns changed |
| Statistics.StatisticsOfAlignedReturns | Portfoliomanager1.py:126-129 | When the market has a return on every portfolio date, beta is line 84's formula over every day of the portfolio's returns against the market's returns at those dates, and the mean is the mean of all the portfolio's returns |
| Statistics.AlignedBetaIsInflated | Portfoliomanager1.py:84 | When the market has a return on every portfolio date, the reported beta is the one-divisor beta of the portfolio against the market's returns at those dates, times n/(n−1) |
| Statistics.WeightsInColumnOrder | Portfoliomanager1.py:120 | Corrected order: column j gets the weight computed for column j's label; a column without a weight is a `KeyError` |
| Statistics.LabelledPortfolioDailyReturns | Portfoliomanager1.py:120 | Corrected dot product: fails exactly when a column has no weight; otherwise one return per day against the weights rearranged into column order |
| Statistics.PositionalMatchesLabelledWhenColumnsAgree | Portfoliomanager1.py:120 | When the weights were computed over the frame's own distinct columns, the positional and labelled dot products agree |
| Statistics.PositionalDotSwapsStocks | Portfoliomanager1.py:119-120 | Weights [1, 0] over [B, A] against columns [A, B] with day returns [1, 0]: line 120 gives 1, the labelled product gives 0 |

## Left out

- Downloads are not modelled: `yf.download` (lines 9, 21, 28) and the
  current-price look-up (lines 25-31) are network I/O. Prices, market
  prices and current prices are inputs.
- The single-column rename (lines 12-13) and the Series-to-frame
  conversions (lines 37-38, 57-58) are not modelled; they are pandas
  plumbing.
- The SLSQP optimisation of `MDP` (lines 92-106) is not modelled. It is a
  foreign numerical solver whose result cannot be stated as a contract;
  its weights enter the model as a parameter.
- Risk and the Sharpe ratio (lines 77-78, 93-97, 123-124, 157-158,
  189-190) are not modelled: they need square roots of floats. Only the
  variance is modelled, in `Statistics.PopVariance`.
- Floating point is not modelled. Arithmetic is exact, with no rounding.
  - A NumPy `nan`/`inf` result is `Err(NotFinite)`.
  - A missing price or return is `None`, which `dropna` removes.
- Frames.Change: a zero previous price gives `inf` in pandas when the
  current price is nonzero, and `dropna` keeps `inf`. The model treats
  every zero previous price as a missing return.
- Frames.PctChange: models the forward-fill default (`fill_method='pad'`)
  of the pandas versions the program was written against. A pandas whose
  default no longer fills would give missing returns after a gap instead.
- Strategies.ReturnWeights: with a duplicated column label, pandas'
  `returns[selected]` returns every column with that label; the model uses
  the first. The program's frames have distinct labels because the tickers
  come from a set (lines 8 and 110).
- The iteration order of `list(set(...))` (lines 8, 110, 145, 177) is
  arbitrary in Python. The model takes each resulting order as a parameter
  instead of fixing it.
- The hardcoded date windows (lines 34, 53-54, 117-118, 152-153, 184-185)
  are configuration constants, not logic.
- The strategy functions `MDP`, `EWP` and `RWP`, and the download steps of
  `calculate_portfolio_statistics`, are compositions of downloads with the
  modelled pieces. Only the pieces are modelled, together with the
  statistics composition `Statistics.PortfolioStatistics`.
- Allocation.Investments: its contract states only the keys. The amounts
  are stated on `Allocation.SplitByPosition`, which it applies to the total
  of line 201 (the sum of every transaction's `amount_invested`). Stating
  them again in terms of that recursive total makes the arithmetic proof
  too expensive.
- Allocation.LabelledInvestments: likewise states only when it succeeds
  and which keys it has. The amounts are stated on
  `Allocation.SplitByLabel`.
- The transaction's `date` and `quantity` fields are never read by the
  source, and no model member reads them either.

## Findings

| source | as written | input that shows it | evidently intended | confidence | as-written member | corrected member |
|---|---|---|---|---|---|---|
| Portfoliomanager1.py:84 | beta = `np.cov` (divisor n−1) over `np.var` (divisor n), which inflates beta by n/(n−1) | portfolio = market = [0, 1]: beta 2.0 | covariance over variance with the same divisor: beta 1.0 | high; not executed | Statistics.BetaAsWritten, Statistics.MarketItselfHasBetaTwoAsWritten, Statistics.AlignedBetaIsInflated | Statistics.SampleBeta, Statistics.SampleBetaOfAffine |
| Portfoliomanager1.py:202 | `zip(current_prices.index, weights)` pairs stocks and weights by position; the weights follow `selected_returns.columns` while the price index follows the data source's order | weights [1, 0] computed over [B, A], prices indexed [A, B]: A receives the whole total | each stock receives its own weight, matched by label | medium (equal weights hide it; the MDP and RWP weights show it if the source orders tickers differently from the set); not executed | Allocation.Investments, Allocation.PositionalSplitSwapsStocks | Allocation.SplitByLabel, Allocation.LabelledInvestments, Allocation.PositionalMatchesLabelledWhenOrdersAgree |
| Portfoliomanager1.py:119-120 | `np.dot(daily_returns.values, weights)` dots weights in `selected_stocks` order against columns in the data source's order (same at lines 154-155 and 186-187) | columns [A, B], weights [1, 0] computed over [B, A], day returns [1, 0]: portfolio return 1 | each column weighted by its own stock's weight: 0 | medium (as above); not executed | Statistics.PortfolioDailyReturns, Statistics.PositionalDotSwapsStocks | Statistics.LabelledPortfolioDailyReturns, Statistics.PositionalMatchesLabelledWhenColumnsAgree |
