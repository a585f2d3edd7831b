/** `calculate_investments` (lines 200-204): the amount to put into each
    stock under a strategy's weights. */
module Allocation {
  import opened Wrappers
  import opened Sums
  import opened Frames
  import opened Holdings
  import opened Strategies

  /** One entry of the `current_prices` Series: its index label and its price. */
  datatype Quote = Quote(symbol: Symbol, price: real)

  function Symbols(prices: seq<Quote>): seq<Symbol>
  {
    seq(|prices|, i requires 0 <= i < |prices| => prices[i].symbol)
  }

  function Min(a: nat, b: nat): nat
  {
    if a <= b then a else b
  }

  /** The last position of `name` in `symbols`. */
  function LastIndexOf(symbols: seq<Symbol>, name: Symbol): (j: nat)
    requires name in symbols
    ensures j < |symbols| && symbols[j] == name
    ensures forall l :: j < l < |symbols| ==> symbols[l] != name
    decreases |symbols|
  {
    if symbols[|symbols| - 1] == name then |symbols| - 1
    else
      assert name in symbols[..|symbols| - 1] by {
        var k :| 0 <= k < |symbols| && symbols[k] == name;
        assert symbols[..|symbols| - 1][k] == name;
      }
      LastIndexOf(symbols[..|symbols| - 1], name)
  }

  lemma DistinctLastIndexOf(symbols: seq<Symbol>, i: nat)
    requires Distinct(symbols) && i < |symbols|
    ensures LastIndexOf(symbols, symbols[i]) == i
  {
  }

  /** Each weight times the total: `weight * total_investment`. */
  function Scaled(weights: seq<real>, total: real): seq<real>
  {
    seq(|weights|, i requires 0 <= i < |weights| => weights[i] * total)
  }

  /** `{k: v for k, v in zip(keys, values)}` over sequences of the same
      length: a repeated key keeps the value of its last pairing. */
  function ZipMap<V>(keys: seq<Symbol>, values: seq<V>): (m: map<Symbol, V>)
    requires |keys| == |values|
    ensures forall k :: k in m <==> k in keys
    ensures forall k :: k in m ==> m[k] == values[LastIndexOf(keys, k)]
  {
    map k | k in keys :: values[LastIndexOf(keys, k)]
  }

  lemma ZipMapDistinct<V>(keys: seq<Symbol>, values: seq<V>, i: nat)
    requires |keys| == |values| && Distinct(keys) && i < |keys|
    ensures keys[i] in ZipMap(keys, values) && ZipMap(keys, values)[keys[i]] == values[i]
  {
    DistinctLastIndexOf(keys, i);
  }

  /** Line 202: `total` split by position between the price index and the
      weights; `zip` stops at the shorter of the two. The prices themselves
      are never read. */
  function SplitByPosition(total: real, weights: seq<real>, currentPrices: seq<Quote>): (m: map<Symbol, real>)
    ensures forall s :: s in m <==> s in Symbols(currentPrices)[..Min(|currentPrices|, |weights|)]
    ensures Distinct(Symbols(currentPrices)) ==> forall i :: 0 <= i < Min(|currentPrices|, |weights|) ==>
      currentPrices[i].symbol in m && m[currentPrices[i].symbol] == weights[i] * total
  {
    var n := Min(|currentPrices|, |weights|);
    var m := ZipMap(Symbols(currentPrices)[..n], Scaled(weights[..n], total));
    PositionalAmounts(total, weights, currentPrices, m);
    m
  }

  lemma PositionalAmounts(total: real, weights: seq<real>, currentPrices: seq<Quote>, m: map<Symbol, real>)
    requires m == ZipMap(Symbols(currentPrices)[..Min(|currentPrices|, |weights|)], Scaled(weights[..Min(|currentPrices|, |weights|)], total))
    ensures Distinct(Symbols(currentPrices)) ==> forall i :: 0 <= i < Min(|currentPrices|, |weights|) ==>
      currentPrices[i].symbol in m && m[currentPrices[i].symbol] == weights[i] * total
  {
    var n := Min(|currentPrices|, |weights|);
    var syms, amounts := Symbols(currentPrices)[..n], Scaled(weights[..n], total);
    if Distinct(Symbols(currentPrices)) {
      assert Distinct(syms);
      forall i | 0 <= i < n ensures currentPrices[i].symbol in m && m[currentPrices[i].symbol] == weights[i] * total {
        assert syms[i] == currentPrices[i].symbol;
        ZipMapDistinct(syms, amounts, i);
        assert amounts[i] == weights[..n][i] * total;
      }
    }
  }

  /** Lines 201-202: the total over all transactions, split by position
      (the amounts are those of `SplitByPosition` with that total). */
  function Investments(ts: seq<Transaction>, weights: seq<real>, currentPrices: seq<Quote>): (m: map<Symbol, real>)
    ensures forall s :: s in m <==> s in Symbols(currentPrices)[..Min(|currentPrices|, |weights|)]
  {
    SplitByPosition(TotalAmount(ts), weights, currentPrices)
  }

  /** With distinct symbols, as many weights as symbols and weights that sum
      to 1, the amounts add back up to the total invested. */
  lemma InvestmentsSumToTotal(ts: seq<Transaction>, weights: seq<real>, currentPrices: seq<Quote>)
    requires Distinct(Symbols(currentPrices)) && |weights| == |currentPrices| && Sum(weights) == 1.0
    ensures forall s :: s in Symbols(currentPrices) ==> s in Investments(ts, weights, currentPrices)
    ensures SumValues(Investments(ts, weights, currentPrices), Symbols(currentPrices)) == TotalAmount(ts)
  {
    var total := TotalAmount(ts);
    SplitSumsToTotal(total, weights, currentPrices, SplitByPosition(total, weights, currentPrices));
  }

  lemma SplitSumsToTotal(total: real, weights: seq<real>, currentPrices: seq<Quote>, m: map<Symbol, real>)
    requires Distinct(Symbols(currentPrices)) && |weights| == |currentPrices| && Sum(weights) == 1.0
    requires m == SplitByPosition(total, weights, currentPrices)
    ensures forall s :: s in Symbols(currentPrices) ==> s in m
    ensures SumValues(m, Symbols(currentPrices)) == total
  {
    var syms := Symbols(currentPrices);
    assert syms[..Min(|currentPrices|, |weights|)] == syms && weights[..|weights|] == weights;
    var amounts := Scaled(weights, total);
    assert m == ZipMap(syms, amounts);
    forall i | 0 <= i < |syms| ensures amounts[i] == m[syms[i]] {
      ZipMapDistinct(syms, amounts, i);
    }
    SumValuesAsSum(m, syms, amounts);
    ScaledUnitSum(weights, total, amounts);
  }

  /** Weights summing to 1, scaled by `total`, sum to `total`. */
  lemma ScaledUnitSum(weights: seq<real>, total: real, amounts: seq<real>)
    requires amounts == Scaled(weights, total) && Sum(weights) == 1.0
    ensures Sum(amounts) == total
  {
    SumScaled(weights, total, amounts);
    TimesOne(Sum(amounts), total, Sum(weights));
  }

  lemma TimesOne(a: real, t: real, x: real)
    requires x == 1.0 && a == t * x
    ensures a == t
  {
  }

  // ---------------------------------------------------------------------
  // Weights matched by label
  // ---------------------------------------------------------------------

  /** `{k: values[labels.index(k)] for k in keys}`: each key takes the value
      recorded under its label; a key with no label is a `KeyError`. */
  function LabelMap<V>(labels: seq<Symbol>, values: seq<V>, keys: seq<Symbol>): (r: Result<map<Symbol, V>>)
    requires |labels| == |values|
    ensures r.Ok? <==> forall k :: k in keys ==> k in labels
    ensures r.Err? ==> r.fault.KeyError? && r.fault.key in keys && r.fault.key !in labels
    ensures r.Ok? ==> forall k :: k in r.value <==> k in keys
    ensures r.Ok? ==> forall k :: k in r.value ==> r.value[k] == values[IndexOf(labels, k)]
  {
    match FirstMissing(labels, keys)
    case Some(k) => Err(KeyError(k))
    case None => Ok(map k | k in keys :: values[IndexOf(labels, k)])
  }

  /** The split the strategies evidently mean: each priced stock gets the
      weight computed for that stock, looked up by label among the columns
      the weights were computed over, rather than the weight at the same
      position. A priced stock without a weight is a `KeyError`. */
  function SplitByLabel(total: real, labels: seq<Symbol>, weights: seq<real>, currentPrices: seq<Quote>): (r: Result<map<Symbol, real>>)
    requires |labels| == |weights|
    ensures r.Ok? <==> forall s :: s in Symbols(currentPrices) ==> s in labels
    ensures r.Err? ==> r.fault.KeyError? && r.fault.key in Symbols(currentPrices) && r.fault.key !in labels
    ensures r.Ok? ==> forall s :: s in r.value <==> s in Symbols(currentPrices)
    ensures r.Ok? ==> forall s :: s in r.value ==> r.value[s] == weights[IndexOf(labels, s)] * total
  {
    LabelMap(labels, Scaled(weights, total), Symbols(currentPrices))
  }

  /** The labelled split of the total over all transactions (the amounts
      are those of `SplitByLabel` with that total). */
  function LabelledInvestments(ts: seq<Transaction>, labels: seq<Symbol>, weights: seq<real>, currentPrices: seq<Quote>): (r: Result<map<Symbol, real>>)
    requires |labels| == |weights|
    ensures r.Ok? <==> forall s :: s in Symbols(currentPrices) ==> s in labels
    ensures r.Err? ==> r.fault.KeyError? && r.fault.key in Symbols(currentPrices) && r.fault.key !in labels
    ensures r.Ok? ==> forall s :: s in r.value <==> s in Symbols(currentPrices)
  {
    SplitByLabel(TotalAmount(ts), labels, weights, currentPrices)
  }

  /** Over distinct labels, looking the keys up by label is the positional zip. */
  lemma LabelMapOfOwnLabels<V>(labels: seq<Symbol>, values: seq<V>)
    requires |labels| == |values| && Distinct(labels)
    ensures LabelMap(labels, values, labels) == Ok(ZipMap(labels, values))
  {
    var r := LabelMap(labels, values, labels).value;
    var m := ZipMap(labels, values);
    forall k | k in m ensures r[k] == m[k] {
      var i :| 0 <= i < |labels| && labels[i] == k;
      DistinctIndexOf(labels, i);
      DistinctLastIndexOf(labels, i);
    }
    assert r == m;
  }

  /** When the price index lists the stocks in the order the weights were
      computed over, the positional split of line 202 is the labelled one. */
  lemma PositionalMatchesLabelledWhenOrdersAgree(ts: seq<Transaction>, labels: seq<Symbol>, weights: seq<real>, currentPrices: seq<Quote>)
    requires |labels| == |weights| && Distinct(labels) && Symbols(currentPrices) == labels
    ensures LabelledInvestments(ts, labels, weights, currentPrices) == Ok(Investments(ts, weights, currentPrices))
  {
    assert Symbols(currentPrices)[..Min(|currentPrices|, |weights|)] == labels && weights[..|weights|] == weights;
    LabelMapOfOwnLabels(labels, Scaled(weights, TotalAmount(ts)));
  }

  /** Weights computed over the columns `[B, A]`, prices indexed `[A, B]`:
      line 202 gives B's whole weight to A. */
  lemma PositionalSplitSwapsStocks()
    ensures Investments([Transaction("A", 0, 1.0, 10.0)], [1.0, 0.0], [Quote("A", 5.0), Quote("B", 7.0)]) == map["A" := 10.0, "B" := 0.0]
    ensures LabelledInvestments([Transaction("A", 0, 1.0, 10.0)], ["B", "A"], [1.0, 0.0], [Quote("A", 5.0), Quote("B", 7.0)]) == Ok(map["A" := 0.0, "B" := 10.0])
  {
    var ts := [Transaction("A", 0, 1.0, 10.0)];
    assert TotalAmount(ts) == TotalAmount(ts[..0]) + 10.0;
    var prices := [Quote("A", 5.0), Quote("B", 7.0)];
    assert Symbols(prices) == ["A", "B"];
    assert Symbols(prices)[..2] == ["A", "B"];
    assert [1.0, 0.0][..2] == [1.0, 0.0];
    assert Scaled([1.0, 0.0], 10.0) == [10.0, 0.0];
    SwappedMaps();
  }

  lemma SwappedMaps()
    ensures ZipMap(["A", "B"], [10.0, 0.0]) == map["A" := 10.0, "B" := 0.0]
    ensures LabelMap(["B", "A"], [10.0, 0.0], ["A", "B"]) == Ok(map["A" := 0.0, "B" := 10.0])
  {
    assert LastIndexOf(["A", "B"], "A") == 0;
    assert LastIndexOf(["A", "B"], "B") == 1;
    assert IndexOf(["B", "A"], "A") == 1;
    assert IndexOf(["B", "A"], "B") == 0;
    assert "A" in ["B", "A"] && "B" in ["B", "A"];
    assert FirstMissing(["B", "A"], ["A", "B"]) == None;
    var r := LabelMap(["B", "A"], [10.0, 0.0], ["A", "B"]);
    assert r.Ok?;
    assert r.value.Keys == {"A", "B"};
    assert r.value["A"] == 0.0 && r.value["B"] == 10.0;
    assert r.value == map["A" := 0.0, "B" := 10.0];
  }
}
