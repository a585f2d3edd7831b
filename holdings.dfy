/** The buy transactions, the amount invested per stock and the current
    portfolio weights (`calculate_portfolio_statistics`, lines 64-73). */
module Holdings {
  import opened Wrappers
  import opened Sums
  import opened Frames

  /** A buy, the tuple `(stock, date, quantity, amount_invested)`. */
  datatype Transaction = Transaction(stock: Symbol, date: Date, quantity: real, amountInvested: real)

  predicate Distinct<T(==)>(xs: seq<T>)
  {
    forall i, j :: 0 <= i < j < |xs| ==> xs[i] != xs[j]
  }

  /** The stocks the transactions name. */
  function Stocks(ts: seq<Transaction>): set<Symbol>
  {
    set i | 0 <= i < |ts| :: ts[i].stock
  }

  /** What was put into `stock` over all its transactions. */
  function AmountFor(ts: seq<Transaction>, stock: Symbol): real
    decreases |ts|
  {
    if ts == [] then 0.0
    else AmountFor(ts[..|ts| - 1], stock) + (if ts[|ts| - 1].stock == stock then ts[|ts| - 1].amountInvested else 0.0)
  }

  /** What was put into the portfolio over all transactions. */
  function TotalAmount(ts: seq<Transaction>): real
    decreases |ts|
  {
    if ts == [] then 0.0 else TotalAmount(ts[..|ts| - 1]) + ts[|ts| - 1].amountInvested
  }

  /** `sum(m[k] for k in keys)`, left to right. */
  function SumValues(m: map<Symbol, real>, keys: seq<Symbol>): real
    requires forall k :: k in keys ==> k in m
    decreases |keys|
  {
    if keys == [] then 0.0 else SumValues(m, keys[..|keys| - 1]) + m[keys[|keys| - 1]]
  }

  /** The loop of lines 64-69: a dictionary from stock to the sum of its
      amounts. `order` is the dictionary's insertion order, the order in
      which `invested_amounts.values()` enumerates its values. */
  method InvestedAmounts(ts: seq<Transaction>) returns (invested: map<Symbol, real>, order: seq<Symbol>)
    ensures invested.Keys == Stocks(ts)
    ensures forall s :: s in invested ==> invested[s] == AmountFor(ts, s)
    ensures Distinct(order) && forall s :: s in order <==> s in invested
  {
    invested, order := map[], [];
    var i := 0;
    while i < |ts|
      invariant 0 <= i <= |ts|
      invariant invested.Keys == Stocks(ts[..i])
      invariant forall s :: s in invested ==> invested[s] == AmountFor(ts[..i], s)
      invariant Distinct(order) && forall s :: s in order <==> s in invested
    {
      var t := ts[i];
      assert ts[..i + 1][..i] == ts[..i];
      StocksSnoc(ts[..i], t);
      assert ts[..i] + [t] == ts[..i + 1];
      assert forall s :: AmountFor(ts[..i + 1], s) == AmountFor(ts[..i], s) + (if t.stock == s then t.amountInvested else 0.0);
      if t.stock in invested {
        invested := invested[t.stock := invested[t.stock] + t.amountInvested];
      } else {
        AmountForAbsent(ts[..i], t.stock);
        invested := invested[t.stock := t.amountInvested];
        order := order + [t.stock];
      }
      i := i + 1;
    }
    assert ts[..i] == ts;
  }

  lemma {:induction false} AmountForAbsent(ts: seq<Transaction>, stock: Symbol)
    requires stock !in Stocks(ts)
    ensures AmountFor(ts, stock) == 0.0
    decreases |ts|
  {
    if ts != [] {
      StocksSnoc(ts[..|ts| - 1], ts[|ts| - 1]);
      assert ts[..|ts| - 1] + [ts[|ts| - 1]] == ts;
      AmountForAbsent(ts[..|ts| - 1], stock);
    }
  }

  lemma StocksSnoc(ts: seq<Transaction>, t: Transaction)
    ensures Stocks(ts + [t]) == Stocks(ts) + {t.stock}
  {
    var u := ts + [t];
    forall s | s in Stocks(u) ensures s in Stocks(ts) + {t.stock} {
      var i :| 0 <= i < |u| && u[i].stock == s;
      if i < |ts| { assert ts[i] == u[i]; }
    }
    forall s | s in Stocks(ts) ensures s in Stocks(u) {
      var i :| 0 <= i < |ts| && ts[i].stock == s;
      assert u[i] == ts[i];
    }
    assert u[|ts|] == t;
  }

  /** `sum(AmountFor(ts, k) for k in keys)`. */
  function AmountsOver(ts: seq<Transaction>, keys: seq<Symbol>): real
    decreases |keys|
  {
    if keys == [] then 0.0 else AmountsOver(ts, keys[..|keys| - 1]) + AmountFor(ts, keys[|keys| - 1])
  }

  lemma {:induction false} AmountsOverNothing(keys: seq<Symbol>)
    ensures AmountsOver([], keys) == 0.0
    decreases |keys|
  {
    if keys != [] {
      AmountsOverNothing(keys[..|keys| - 1]);
    }
  }

  /** One more transaction adds its amount to exactly one of distinct keys. */
  lemma {:induction false} AmountsOverSnoc(ts: seq<Transaction>, t: Transaction, keys: seq<Symbol>)
    requires Distinct(keys)
    ensures AmountsOver(ts + [t], keys) == AmountsOver(ts, keys) + (if t.stock in keys then t.amountInvested else 0.0)
    decreases |keys|
  {
    assert (ts + [t])[..|ts + [t]| - 1] == ts;
    if keys != [] {
      var ks, k := keys[..|keys| - 1], keys[|keys| - 1];
      assert Distinct(ks);
      AmountsOverSnoc(ts, t, ks);
      assert keys == ks + [k];
      assert t.stock in keys <==> t.stock in ks || t.stock == k;
      assert !(t.stock in ks && t.stock == k);
    }
  }

  /** Summing the per-stock amounts over distinct keys that cover every
      stock gives the amount of all transactions. */
  lemma {:induction false} AmountsOverAllStocks(ts: seq<Transaction>, keys: seq<Symbol>)
    requires Distinct(keys) && forall s :: s in Stocks(ts) ==> s in keys
    ensures AmountsOver(ts, keys) == TotalAmount(ts)
    decreases |ts|
  {
    if ts == [] {
      AmountsOverNothing(keys);
    } else {
      var rest, t := ts[..|ts| - 1], ts[|ts| - 1];
      assert rest + [t] == ts;
      StocksSnoc(rest, t);
      AmountsOverAllStocks(rest, keys);
      AmountsOverSnoc(rest, t, keys);
    }
  }

  lemma {:induction false} SumValuesOfAmounts(ts: seq<Transaction>, m: map<Symbol, real>, keys: seq<Symbol>)
    requires forall k :: k in keys ==> k in m && m[k] == AmountFor(ts, k)
    ensures SumValues(m, keys) == AmountsOver(ts, keys)
    decreases |keys|
  {
    if keys != [] {
      SumValuesOfAmounts(ts, m, keys[..|keys| - 1]);
    }
  }

  /** Line 71: `sum(invested_amounts.values())` is the amount of all
      transactions. */
  lemma TotalInvestedIsTotalAmount(ts: seq<Transaction>, invested: map<Symbol, real>, order: seq<Symbol>)
    requires invested.Keys == Stocks(ts)
    requires forall s :: s in invested ==> invested[s] == AmountFor(ts, s)
    requires Distinct(order) && forall s :: s in order <==> s in invested
    ensures SumValues(invested, order) == TotalAmount(ts)
  {
    SumValuesOfAmounts(ts, invested, order);
    AmountsOverAllStocks(ts, order);
  }

  /** Line 73: `[invested_amounts[stock] / total_invested for stock in columns]`.
      A column the dictionary lacks raises `KeyError`; a zero total raises
      `ZeroDivisionError` at the first column the dictionary has. */
  function CurrentWeights(invested: map<Symbol, real>, total: real, columns: seq<Symbol>): (r: Result<seq<real>>)
    ensures r.Ok? <==> (forall c :: c in columns ==> c in invested) && (columns == [] || total != 0.0)
    ensures r.Ok? ==> |r.value| == |columns|
    ensures r.Ok? ==> forall i :: 0 <= i < |columns| ==> r.value[i] == invested[columns[i]] / total
    ensures r == Err(ZeroDivision) ==> total == 0.0
    ensures r.Err? && r.fault.KeyError? ==> r.fault.key in columns && r.fault.key !in invested
    ensures r.Err? ==> r.fault.KeyError? || r.fault == ZeroDivision
    decreases |columns|
  {
    if columns == [] then Ok([])
    else if columns[0] !in invested then Err(KeyError(columns[0]))
    else if total == 0.0 then Err(ZeroDivision)
    else
      match CurrentWeights(invested, total, columns[1..])
      case Err(f) => Err(f)
      case Ok(rest) =>
        assert forall c :: c in columns ==> c == columns[0] || c in columns[1..];
        Ok([invested[columns[0]] / total] + rest)
  }

  lemma {:induction false} SumValuesAsSum(m: map<Symbol, real>, keys: seq<Symbol>, ys: seq<real>)
    requires forall k :: k in keys ==> k in m
    requires |ys| == |keys| && forall i :: 0 <= i < |keys| ==> ys[i] == m[keys[i]]
    ensures Sum(ys) == SumValues(m, keys)
    decreases |keys|
  {
    if keys != [] {
      SumValuesAsSum(m, keys[..|keys| - 1], ys[..|ys| - 1]);
    }
  }

  /** Scaling the weights back by the total recovers the amounts they came from. */
  lemma WeightsTimesTotal(invested: map<Symbol, real>, total: real, columns: seq<Symbol>, w: seq<real>)
    requires CurrentWeights(invested, total, columns) == Ok(w)
    ensures total * Sum(w) == SumValues(invested, columns)
  {
    if columns == [] {
      assert w == [] && Sum(w) == 0.0 && SumValues(invested, columns) == 0.0;
    } else {
      assert |w| == |columns| && total != 0.0 && forall k :: k in columns ==> k in invested;
      QuotientsTimesTotal(w, total, invested, columns);
    }
  }

  /** The same over any quotients of the amounts by a nonzero total. */
  lemma QuotientsTimesTotal(w: seq<real>, total: real, m: map<Symbol, real>, keys: seq<Symbol>)
    requires |w| == |keys| && total != 0.0 && forall k :: k in keys ==> k in m
    requires forall i :: 0 <= i < |keys| ==> w[i] == m[keys[i]] / total
    ensures total * Sum(w) == SumValues(m, keys)
  {
    forall i | 0 <= i < |keys| ensures w[i] * total == m[keys[i]] {
      Rescale(m[keys[i]], total);
    }
    ProportionalSum(w, total, m, keys);
  }

  lemma {:induction false} ProportionalSum(w: seq<real>, total: real, m: map<Symbol, real>, keys: seq<Symbol>)
    requires |w| == |keys| && forall k :: k in keys ==> k in m
    requires forall i :: 0 <= i < |keys| ==> w[i] * total == m[keys[i]]
    ensures total * Sum(w) == SumValues(m, keys)
    decreases |keys|
  {
    if keys != [] {
      ProportionalSum(w[..|w| - 1], total, m, keys[..|keys| - 1]);
    }
  }

  lemma Rescale(x: real, t: real)
    requires t != 0.0
    ensures x / t * t == x
  {
  }

  lemma CancelFactor(x: real, y: real)
    requires x != 0.0 && x * y == x
    ensures y == 1.0
  {
  }

  /** When the return columns are exactly the stocks the transactions name
      and the total is nonzero, the current weights exist and sum to 1. */
  lemma CurrentWeightsSumToOne(ts: seq<Transaction>, invested: map<Symbol, real>, order: seq<Symbol>, columns: seq<Symbol>)
    requires invested.Keys == Stocks(ts)
    requires forall s :: s in invested ==> invested[s] == AmountFor(ts, s)
    requires Distinct(order) && forall s :: s in order <==> s in invested
    requires Distinct(columns) && forall s :: s in columns <==> s in Stocks(ts)
    requires TotalAmount(ts) != 0.0
    ensures CurrentWeights(invested, SumValues(invested, order), columns).Ok?
    ensures Sum(CurrentWeights(invested, SumValues(invested, order), columns).value) == 1.0
  {
    TotalInvestedIsTotalAmount(ts, invested, order);
    SumValuesOfAmounts(ts, invested, columns);
    AmountsOverAllStocks(ts, columns);
    WeightsOfTotalSumToOne(invested, SumValues(invested, order), columns);
  }

  lemma WeightsOfTotalSumToOne(invested: map<Symbol, real>, total: real, columns: seq<Symbol>)
    requires forall c :: c in columns ==> c in invested
    requires total != 0.0 && SumValues(invested, columns) == total
    ensures CurrentWeights(invested, total, columns).Ok?
    ensures Sum(CurrentWeights(invested, total, columns).value) == 1.0
  {
    var w := CurrentWeights(invested, total, columns).value;
    WeightsTimesTotal(invested, total, columns, w);
    CancelFactor(total, Sum(w));
  }
}
