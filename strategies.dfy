/** The two closed-form weight rules: the equal-weight fill of `EWP_inner`
    (lines 137-141) and the return-weighted normalisation of the inner
    `RWP` (lines 171-173). */
module Strategies {
  import opened Wrappers
  import opened Sums
  import opened Frames
  import opened Holdings

  /** The set of labels a sequence holds. */
  function Elements<T>(xs: seq<T>): set<T>
  {
    set x | x in xs
  }

  /** How many of `columns` are labelled with a selected stock. */
  function Hits(columns: seq<Symbol>, selected: seq<Symbol>): nat
    decreases |columns|
  {
    if columns == [] then 0
    else Hits(columns[..|columns| - 1], selected) + (if columns[|columns| - 1] in selected then 1 else 0)
  }

  // ---------------------------------------------------------------------
  // Equal weights
  // ---------------------------------------------------------------------

  /** The vector `EWP_inner` promises: `1 / len(selected_stocks)` at every
      column labelled with a selected stock, 0 elsewhere. */
  function EqualWeightVector(columns: seq<Symbol>, selected: seq<Symbol>): seq<real>
  {
    seq(|columns|, j requires 0 <= j < |columns| => if columns[j] in selected then 1.0 / (|selected| as real) else 0.0)
  }

  /** Lines 137-141: `weight = np.zeros(len(columns))`, then for each
      selected stock `weight[columns.get_loc(stock)] = 1 / len(selected)`.
      `get_loc` raises `KeyError` for a stock that is not a column; for a
      label that occurs several times it selects every occurrence, which
      the assignment to all matching positions reproduces. */
  method EqualWeights(columns: seq<Symbol>, selected: seq<Symbol>) returns (r: Result<seq<real>>)
    ensures r.Ok? <==> forall s :: s in selected ==> s in columns
    ensures r.Ok? ==> r.value == EqualWeightVector(columns, selected)
    ensures r.Err? ==> exists i ::
      0 <= i < |selected| && r.fault == KeyError(selected[i]) && selected[i] !in columns &&
      forall l :: 0 <= l < i ==> selected[l] in columns
  {
    var weight := new real[|columns|](_ => 0.0);
    var i := 0;
    while i < |selected|
      invariant 0 <= i <= |selected|
      invariant weight.Length == |columns|
      invariant forall l :: 0 <= l < i ==> selected[l] in columns
      invariant forall j :: 0 <= j < |columns| ==>
        weight[j] == if columns[j] in selected[..i] then 1.0 / (|selected| as real) else 0.0
    {
      var stock := selected[i];
      if stock !in columns {
        return Err(KeyError(stock));
      }
      forall j | 0 <= j < weight.Length && columns[j] == stock {
        weight[j] := 1.0 / (|selected| as real);
      }
      assert forall c :: c in selected[..i + 1] <==> c in selected[..i] || c == stock;
      i := i + 1;
    }
    assert selected[..i] == selected;
    return Ok(weight[..]);
  }

  lemma {:induction false} EqualWeightVectorPrefix(columns: seq<Symbol>, selected: seq<Symbol>)
    requires columns != []
    ensures EqualWeightVector(columns, selected)[..|columns| - 1] == EqualWeightVector(columns[..|columns| - 1], selected)
  {
  }

  lemma {:induction false} SumOfEqualWeights(columns: seq<Symbol>, selected: seq<Symbol>)
    requires selected != []
    ensures Sum(EqualWeightVector(columns, selected)) == (Hits(columns, selected) as real) * (1.0 / (|selected| as real))
    decreases |columns|
  {
    if columns != [] {
      EqualWeightVectorPrefix(columns, selected);
      SumOfEqualWeights(columns[..|columns| - 1], selected);
    }
  }

  /** Among distinct columns, the hits are the selected labels that occur. */
  lemma {:induction false} HitsOfDistinct(columns: seq<Symbol>, selected: seq<Symbol>)
    requires Distinct(columns)
    ensures Hits(columns, selected) == |Elements(columns) * Elements(selected)|
    decreases |columns|
  {
    if columns == [] {
      assert Elements(columns) == {};
    } else {
      var init, c := columns[..|columns| - 1], columns[|columns| - 1];
      assert Distinct(init);
      HitsOfDistinct(init, selected);
      var common := Elements(init) * Elements(selected);
      ElementsSnoc(columns);
      if c in selected {
        assert c !in common;
        assert Elements(columns) * Elements(selected) == common + {c};
      } else {
        assert Elements(columns) * Elements(selected) == common;
      }
    }
  }

  lemma ElementsSnoc<T>(xs: seq<T>)
    requires xs != []
    ensures Elements(xs) == Elements(xs[..|xs| - 1]) + {xs[|xs| - 1]}
  {
    assert forall x :: x in xs <==> x in xs[..|xs| - 1] || x == xs[|xs| - 1];
  }

  lemma {:induction false} ElementsOfDistinct<T>(xs: seq<T>)
    requires Distinct(xs)
    ensures |Elements(xs)| == |xs|
    decreases |xs|
  {
    if xs == [] {
      assert Elements(xs) == {};
    } else {
      var init := xs[..|xs| - 1];
      assert Distinct(init);
      ElementsOfDistinct(init);
      assert Elements(xs) == Elements(init) + {xs[|xs| - 1]};
    }
  }

  /** With distinct selected stocks, all of them distinct columns, the
      equal weights sum to 1. */
  lemma EqualWeightsSumToOne(columns: seq<Symbol>, selected: seq<Symbol>)
    requires Distinct(columns) && Distinct(selected) && selected != []
    requires forall s :: s in selected ==> s in columns
    ensures Sum(EqualWeightVector(columns, selected)) == 1.0
  {
    SumOfEqualWeights(columns, selected);
    HitsOfDistinct(columns, selected);
    assert Elements(columns) * Elements(selected) == Elements(selected);
    ElementsOfDistinct(selected);
    var k := |selected| as real;
    assert (Hits(columns, selected) as real) == k;
    assert k * (1.0 / k) == 1.0;
  }

  /** The entries are 1/k on the selected columns and 0 on the others. */
  lemma EqualWeightEntries(columns: seq<Symbol>, selected: seq<Symbol>, j: nat)
    requires j < |columns|
    ensures columns[j] in selected ==> EqualWeightVector(columns, selected)[j] * (|selected| as real) == 1.0
    ensures columns[j] !in selected ==> EqualWeightVector(columns, selected)[j] == 0.0
  {
  }

  // ---------------------------------------------------------------------
  // Return weights
  // ---------------------------------------------------------------------

  /** The first position of `name` among `columns`. */
  function IndexOf(columns: seq<Symbol>, name: Symbol): (j: nat)
    requires name in columns
    ensures j < |columns| && columns[j] == name
    ensures forall l :: 0 <= l < j ==> columns[l] != name
  {
    if columns[0] == name then 0 else 1 + IndexOf(columns[1..], name)
  }

  /** Among distinct labels, a label's first position is its position. */
  lemma DistinctIndexOf(labels: seq<Symbol>, i: nat)
    requires Distinct(labels) && i < |labels|
    ensures IndexOf(labels, labels[i]) == i
  {
  }

  /** The first selected name that is not a column, if any. */
  function FirstMissing(columns: seq<Symbol>, selected: seq<Symbol>): (r: Option<Symbol>)
    ensures r.None? <==> forall s :: s in selected ==> s in columns
    ensures r.Some? ==> r.value in selected && r.value !in columns
  {
    if selected == [] then None
    else if selected[0] !in columns then Some(selected[0])
    else
      assert forall s :: s in selected ==> s == selected[0] || s in selected[1..];
      FirstMissing(columns, selected[1..])
  }

  /** `returns[j].sum()`: the column's returns summed over all dates. */
  function ColumnSum(f: Frame<real>, j: nat): real
    requires Rectangular(f) && j < |f.columns|
  {
    Sum(seq(|f.rows|, i requires 0 <= i < |f.rows| => f.rows[i].value[j]))
  }

  /** `returns[selected].sum()`, one entry per selected name, in that order. */
  function SelectedSums(f: Frame<real>, selected: seq<Symbol>): seq<real>
    requires Rectangular(f)
    requires forall s :: s in selected ==> s in f.columns
  {
    seq(|selected|, i requires 0 <= i < |selected| => ColumnSum(f, IndexOf(f.columns, selected[i])))
  }

  /** Line 172: `returns[selected].sum() / returns[selected].sum().sum()`.
      A missing name raises `KeyError`. Dividing a Series by a zero total
      does not raise: every entry becomes `inf` or `nan`, which is
      `NotFinite`; with nothing selected the result is the empty Series. */
  function ReturnWeights(f: Frame<real>, selected: seq<Symbol>): (r: Result<seq<real>>)
    requires Rectangular(f)
    ensures r.Err? && r.fault.KeyError? <==> exists s :: s in selected && s !in f.columns
    ensures r.Err? && r.fault.KeyError? ==> r.fault.key in selected && r.fault.key !in f.columns
    ensures r == Err(NotFinite) <==>
      (forall s :: s in selected ==> s in f.columns) && selected != [] && Sum(SelectedSums(f, selected)) == 0.0
    ensures r.Ok? ==> |r.value| == |selected|
  {
    match FirstMissing(f.columns, selected)
    case Some(s) => Err(KeyError(s))
    case None =>
      var sums := SelectedSums(f, selected);
      var total := Sum(sums);
      if selected == [] then Ok([])
      else if total == 0.0 then Err(NotFinite)
      else Ok(Normalised(sums, total))
  }

  /** Each sum divided by the grand total. */
  function Normalised(sums: seq<real>, total: real): (w: seq<real>)
    requires total != 0.0
    ensures |w| == |sums|
    ensures forall i :: 0 <= i < |w| ==> w[i] * total == sums[i]
  {
    var w := seq(|sums|, i requires 0 <= i < |sums| => sums[i] / total);
    assert forall i :: 0 <= i < |sums| ==> w[i] * total == sums[i] by {
      forall i | 0 <= i < |sums| ensures w[i] * total == sums[i] {
        Rescale(sums[i], total);
      }
    }
    w
  }

  /** Weight i times the grand total of line 172 is the return sum of
      selected column i. */
  lemma ReturnWeightsProportional(f: Frame<real>, selected: seq<Symbol>, w: seq<real>, total: real, i: nat)
    requires Rectangular(f)
    requires ReturnWeights(f, selected) == Ok(w) && total == Sum(SelectedSums(f, selected)) && i < |w|
    ensures w[i] * total == ColumnSum(f, IndexOf(f.columns, selected[i]))
  {
    var sums := SelectedSums(f, selected);
    assert selected != [] && total != 0.0;
    assert w == Normalised(sums, total);
  }

  /** The return weights sum to 1: the double sum of line 172 normalises them. */
  lemma ReturnWeightsSumToOne(f: Frame<real>, selected: seq<Symbol>)
    requires Rectangular(f)
    requires ReturnWeights(f, selected).Ok? && selected != []
    ensures Sum(ReturnWeights(f, selected).value) == 1.0
  {
    var w := ReturnWeights(f, selected).value;
    var sums := SelectedSums(f, selected);
    var total := Sum(sums);
    assert w == Normalised(sums, total);
    ScaledSumIsOne(w, sums, total);
  }

  lemma ScaledSumIsOne(w: seq<real>, sums: seq<real>, total: real)
    requires |w| == |sums| && total != 0.0 && Sum(sums) == total
    requires forall i :: 0 <= i < |w| ==> w[i] * total == sums[i]
    ensures Sum(w) == 1.0
  {
    SumScaled(w, total, sums);
    UnitFactor(Sum(sums), total, Sum(w));
  }

  lemma UnitFactor(a: real, t: real, x: real)
    requires a == t * x && a == t && t != 0.0
    ensures x == 1.0
  {
    CancelFactor(t, x);
  }

  /** A column whose returns sum to more than the grand total of all the
      selected columns gets a weight above 1: nothing bounds the return
      weights to [0, 1]. */
  lemma ReturnWeightsUnbounded()
    ensures ReturnWeights(Frame(["A", "B"], [Entry(1, [2.0, -1.0])]), ["A", "B"]) == Ok([2.0, -1.0])
  {
    var f := Frame(["A", "B"], [Entry(1, [2.0, -1.0])]);
    var c0 := seq(|f.rows|, i requires 0 <= i < |f.rows| => f.rows[i].value[0]);
    var c1 := seq(|f.rows|, i requires 0 <= i < |f.rows| => f.rows[i].value[1]);
    assert c0 == [2.0] && c1 == [-1.0];
    assert Sum(c0) == Sum(c0[..0]) + 2.0;
    assert Sum(c1) == Sum(c1[..0]) + -1.0;
    assert IndexOf(f.columns, "A") == 0;
    assert IndexOf(f.columns, "B") == 1;
    var sums := SelectedSums(f, ["A", "B"]);
    assert sums == [2.0, -1.0];
    assert Sum(sums) == Sum([2.0]) + -1.0 by { assert sums[..1] == [2.0]; }
    assert Sum([2.0]) == Sum([2.0][..0]) + 2.0;
    assert Normalised(sums, 1.0) == [2.0, -1.0];
  }
}
