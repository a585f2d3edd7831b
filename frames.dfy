/** Date-indexed series and frames as the portfolio manager uses them through
    pandas: percentage change with the default forward fill, `dropna`,
    `reindex`, `.loc` and the alignment of a return series with the market's. */
module Frames {
  import opened Wrappers

  /** Trading dates are ordinal day numbers; only their order matters. */
  type Date = int
  type Symbol = string

  datatype Entry<V> = Entry(date: Date, value: V)

  /** A pandas Series, or the rows of a DataFrame, in index order. */
  type Series<V> = seq<Entry<V>>

  /** A DataFrame: column labels and one row of cells per date. */
  datatype Frame<C> = Frame(columns: seq<Symbol>, rows: Series<seq<C>>)

  predicate Rectangular<C>(f: Frame<C>)
  {
    forall i :: 0 <= i < |f.rows| ==> |f.rows[i].value| == |f.columns|
  }

  function Dates<V>(s: Series<V>): seq<Date>
  {
    seq(|s|, i requires 0 <= i < |s| => s[i].date)
  }

  function Values<V>(s: Series<V>): seq<V>
  {
    seq(|s|, i requires 0 <= i < |s| => s[i].value)
  }

  /** `pd.Series(values, index=dates)`. */
  function Zip<V>(ds: seq<Date>, vs: seq<V>): (s: Series<V>)
    requires |ds| == |vs|
    ensures Dates(s) == ds && Values(s) == vs
  {
    seq(|ds|, i requires 0 <= i < |ds| => Entry(ds[i], vs[i]))
  }

  /** Strictly increasing: a sorted index without duplicate labels. */
  predicate Increasing(ds: seq<Date>)
  {
    forall i, j :: 0 <= i < j < |ds| ==> ds[i] < ds[j]
  }

  /** `a` is `b` with some elements removed, order kept. */
  predicate Subseq<T(==)>(a: seq<T>, b: seq<T>)
    decreases |b|
  {
    a == [] || (b != [] && if a[0] == b[0] then Subseq(a[1..], b[1..]) else Subseq(a, b[1..]))
  }

  // ---------------------------------------------------------------------------
  // Percentage change and missing values

  /** The value in force at position `t` once missing values are filled
      forward (pandas' default `fill_method='pad'` of `pct_change`);
      `None` where nothing has been observed yet, and for `t == -1`. */
  function LastSeen(col: seq<Option<real>>, t: int): Option<real>
    requires t < |col|
    decreases t + 1
  {
    if t < 0 then None else if col[t].Some? then col[t] else LastSeen(col, t - 1)
  }

  /** The forward-filled value is the latest observation at or before `t`,
      and there is one exactly when something has been observed by then. */
  lemma {:induction false} LastSeenIsLatest(col: seq<Option<real>>, t: int)
    requires t < |col|
    ensures LastSeen(col, t).Some? <==> exists k :: 0 <= k <= t && col[k].Some?
    ensures LastSeen(col, t).Some? ==>
      exists k :: 0 <= k <= t && col[k] == LastSeen(col, t) && forall j :: k < j <= t ==> col[j].None?
    decreases t + 1
  {
    if t >= 0 && col[t].None? {
      LastSeenIsLatest(col, t - 1);
      if LastSeen(col, t).Some? {
        var k :| 0 <= k <= t - 1 && col[k] == LastSeen(col, t - 1) && forall j :: k < j <= t - 1 ==> col[j].None?;
        assert forall j :: k < j <= t ==> col[j].None?;
      }
    }
  }

  /** One step of `p_t / p_{t-1} - 1`. A missing operand gives a missing
      result; a zero previous price, which gives inf or nan in floating
      point, is treated as missing too. */
  function Change(prev: Option<real>, cur: Option<real>): Option<real>
  {
    if prev.Some? && cur.Some? && prev.value != 0.0 then Some(cur.value / prev.value - 1.0) else None
  }

  /** `Series.pct_change()`: same index, first entry missing. */
  function PctChange(s: Series<Option<real>>): (r: Series<Option<real>>)
    ensures Dates(r) == Dates(s)
  {
    seq(|s|, i requires 0 <= i < |s| => Entry(s[i].date, Change(LastSeen(Values(s), i - 1), LastSeen(Values(s), i))))
  }

  function Column<C>(f: Frame<C>, j: nat): Series<C>
    requires Rectangular(f) && j < |f.columns|
  {
    seq(|f.rows|, i requires 0 <= i < |f.rows| => Entry(f.rows[i].date, f.rows[i].value[j]))
  }

  /** `DataFrame.pct_change()`: every column changed on its own. */
  function PctChangeFrame(f: Frame<Option<real>>): (g: Frame<Option<real>>)
    requires Rectangular(f)
    ensures Rectangular(g) && g.columns == f.columns && Dates(g.rows) == Dates(f.rows)
  {
    Frame(f.columns,
      seq(|f.rows|, i requires 0 <= i < |f.rows| =>
        Entry(f.rows[i].date, seq(|f.columns|, j requires 0 <= j < |f.columns| => PctChange(Column(f, j))[i].value))))
  }

  /** `Series.dropna()`: the entries that carry a value, in order. */
  function DropMissing<V(==,!new)>(s: Series<Option<V>>): (r: Series<V>)
    ensures |r| <= |s|
    ensures forall e :: e in r <==> Entry(e.date, Some(e.value)) in s
  {
    if s == [] then []
    else
      var rest := DropMissing(s[1..]);
      assert forall x :: x in s <==> x == s[0] || x in s[1..];
      if s[0].value.Some? then [Entry(s[0].date, s[0].value.value)] + rest
      else rest
  }

  /** The cells of a row when none is missing. */
  function Complete(cells: seq<Option<real>>): (r: Option<seq<real>>)
    ensures r.Some? <==> forall j :: 0 <= j < |cells| ==> cells[j].Some?
    ensures r.Some? ==> |r.value| == |cells| && forall j :: 0 <= j < |cells| ==> cells[j] == Some(r.value[j])
  {
    if cells == [] then Some([])
    else if cells[0].None? then None
    else match Complete(cells[1..])
      case None => None
      case Some(rest) => Some([cells[0].value] + rest)
  }

  /** `DataFrame.dropna()`: the rows none of whose cells is missing, with
      their dates and values, in the frame's order. */
  function DropMissingRows(f: Frame<Option<real>>): (g: Frame<real>)
    requires Rectangular(f)
    ensures Rectangular(g) && g.columns == f.columns
    ensures forall e :: e in g.rows <==>
      exists i :: 0 <= i < |f.rows| && f.rows[i].date == e.date && Complete(f.rows[i].value) == Some(e.value)
    ensures Subseq(Dates(g.rows), Dates(f.rows))
  {
    var rows := CompleteRows(f);
    DropMissingWidth(rows, |f.columns|);
    DropMissingKeepsOrder(rows);
    assert Dates(rows) == Dates(f.rows);
    CompleteRowMembers(f);
    Frame(f.columns, DropMissing(rows))
  }

  lemma CompleteRowMembers(f: Frame<Option<real>>)
    ensures forall e: Entry<seq<real>> :: Entry(e.date, Some(e.value)) in CompleteRows(f) <==>
      exists i :: 0 <= i < |f.rows| && f.rows[i].date == e.date && Complete(f.rows[i].value) == Some(e.value)
  {
    var rows := CompleteRows(f);
    forall e: Entry<seq<real>> | Entry(e.date, Some(e.value)) in rows
      ensures exists i :: 0 <= i < |f.rows| && f.rows[i].date == e.date && Complete(f.rows[i].value) == Some(e.value)
    {
      var i :| 0 <= i < |rows| && rows[i] == Entry(e.date, Some(e.value));
      assert f.rows[i].date == e.date;
    }
    forall e: Entry<seq<real>>, i | 0 <= i < |f.rows| && f.rows[i].date == e.date && Complete(f.rows[i].value) == Some(e.value)
      ensures Entry(e.date, Some(e.value)) in rows
    {
      assert rows[i] == Entry(e.date, Some(e.value));
    }
  }

  function CompleteRows(f: Frame<Option<real>>): (rows: Series<Option<seq<real>>>)
    ensures |rows| == |f.rows|
  {
    seq(|f.rows|, i requires 0 <= i < |f.rows| => Entry(f.rows[i].date, Complete(f.rows[i].value)))
  }

  lemma {:induction false} DropMissingWidth(rows: Series<Option<seq<real>>>, w: nat)
    requires forall i :: 0 <= i < |rows| && rows[i].value.Some? ==> |rows[i].value.value| == w
    ensures forall i :: 0 <= i < |DropMissing(rows)| ==> |DropMissing(rows)[i].value| == w
    decreases |rows|
  {
    if rows != [] {
      DropMissingWidth(rows[1..], w);
    }
  }

  // ---------------------------------------------------------------------------
  // Label look-ups

  /** The value at the first entry dated `d`. */
  function Lookup<V>(s: Series<V>, d: Date): (r: Option<V>)
    ensures r.Some? <==> d in Dates(s)
    ensures r.Some? ==> exists i :: 0 <= i < |s| && s[i] == Entry(d, r.value)
  {
    if s == [] then None
    else if s[0].date == d then
      assert Dates(s)[0] == d;
      Some(s[0].value)
    else
      var r := Lookup(s[1..], d);
      assert Dates(s) == [s[0].date] + Dates(s[1..]);
      assert r.Some? ==> exists i :: 0 <= i < |s| && s[i] == Entry(d, r.value) by {
        if r.Some? {
          var i :| 0 <= i < |s[1..]| && s[1..][i] == Entry(d, r.value);
          assert s[i + 1] == Entry(d, r.value);
        }
      }
      r
  }

  /** `s.reindex(ds)`: one entry per requested date, missing where `s` has none. */
  function Reindex<V>(s: Series<V>, ds: seq<Date>): (r: Series<Option<V>>)
    ensures Dates(r) == ds
  {
    if ds == [] then []
    else
      var r := [Entry(ds[0], Lookup(s, ds[0]))] + Reindex(s, ds[1..]);
      assert Dates(r) == [ds[0]] + Dates(Reindex(s, ds[1..]));
      r
  }

  /** `s.loc[ds]`: the entries at the requested dates, in the requested
      order; a date `s` does not have raises `KeyError`, here `None`. */
  function Loc<V>(s: Series<V>, ds: seq<Date>): (r: Option<Series<V>>)
    ensures r.Some? <==> forall d :: d in ds ==> d in Dates(s)
    ensures r.Some? ==> Dates(r.value) == ds
  {
    if ds == [] then Some([])
    else
      match Lookup(s, ds[0])
      case None => None
      case Some(v) =>
        match Loc(s, ds[1..])
        case None => None
        case Some(rest) =>
          var r := [Entry(ds[0], v)] + rest;
          assert Dates(r) == [ds[0]] + Dates(rest);
          Some(r)
  }

  // ---------------------------------------------------------------------------
  // Alignment with the market series

  /** The dates of `s` on which `market` has a value, in the order of `s`:
      `market.reindex(s.index).dropna()`. */
  function MarketOn<V>(s: Series<V>, market: Series<real>): Series<real>
  {
    DropMissing(Reindex(market, Dates(s)))
  }

  /** `m = market.reindex(s.index).dropna(); s = s.loc[m.index]`. */
  function Align<V>(s: Series<V>, market: Series<real>): (r: (Series<V>, Series<real>))
    ensures Dates(r.0) == Dates(r.1)
  {
    var m := MarketOn(s, market);
    MarketOnWithin(s, market);
    (Loc(s, Dates(m)).value, m)
  }

  lemma MarketOnWithin<V>(s: Series<V>, market: Series<real>)
    ensures forall d :: d in Dates(MarketOn(s, market)) ==> d in Dates(s)
  {
    ReindexDropped(market, Dates(s));
  }

  // ---------------------------------------------------------------------------
  // Lemmas about subsequences

  lemma {:induction false} SubseqMembers<T>(a: seq<T>, b: seq<T>)
    requires Subseq(a, b)
    ensures forall x :: x in a ==> x in b
    decreases |b|
  {
    if a != [] {
      if a[0] == b[0] {
        SubseqMembers(a[1..], b[1..]);
        assert forall x :: x in a ==> x == a[0] || x in a[1..];
      } else {
        SubseqMembers(a, b[1..]);
      }
    }
  }

  lemma {:induction false} SubseqDropFirst<T>(a: seq<T>, b: seq<T>)
    requires a != [] && Subseq(a, b)
    ensures Subseq(a[1..], b)
    decreases |b|, 0
  {
    if a[0] == b[0] {
      SubseqCons(a[1..], b[1..], b[0]);
      assert [b[0]] + b[1..] == b;
    } else {
      SubseqDropFirst(a, b[1..]);
      SubseqCons(a[1..], b[1..], b[0]);
      assert [b[0]] + b[1..] == b;
    }
  }

  lemma {:induction false} SubseqCons<T>(a: seq<T>, b: seq<T>, x: T)
    requires Subseq(a, b)
    ensures Subseq(a, [x] + b)
    decreases |b|, 1
  {
    if a != [] {
      assert ([x] + b)[1..] == b;
      if a[0] == x {
        SubseqDropFirst(a, b);
      }
    }
  }

  lemma {:induction false} SubseqIncreasing(a: seq<Date>, b: seq<Date>)
    requires Subseq(a, b) && Increasing(b)
    ensures Increasing(a)
    decreases |b|
  {
    if a != [] {
      if a[0] == b[0] {
        SubseqIncreasing(a[1..], b[1..]);
        SubseqMembers(a[1..], b[1..]);
        forall j | 0 < j < |a| ensures a[0] < a[j] {
          assert a[j] in a[1..];
        }
      } else {
        SubseqIncreasing(a, b[1..]);
      }
    }
  }

  /** An increasing list of dates all of which `s` carries picks out a
      subsequence of the dates of an increasing `s`. */
  lemma {:induction false} IncreasingWithinIsSubseq(a: seq<Date>, b: seq<Date>)
    requires Increasing(a) && Increasing(b)
    requires forall d :: d in a ==> d in b
    ensures Subseq(a, b)
    decreases |b|
  {
    if a != [] {
      assert a[0] in a;
      if a[0] == b[0] {
        forall d | d in a[1..] ensures d in b[1..] {
          var j :| 0 <= j < |a[1..]| && a[1..][j] == d;
          assert a[j + 1] == d && a[0] < d;
          assert d in b;
          var k :| 0 <= k < |b| && b[k] == d;
          assert k != 0;
          assert b[1..][k - 1] == d;
        }
        IncreasingWithinIsSubseq(a[1..], b[1..]);
      } else {
        forall d | d in a ensures d in b[1..] {
          var j :| 0 <= j < |a| && a[j] == d;
          var k :| 0 <= k < |b| && b[k] == d;
          var k0 :| 0 <= k0 < |b| && b[k0] == a[0];
          assert k0 > 0;
          assert j == 0 || a[0] < d;
          assert k > 0;
          assert b[1..][k - 1] == d;
        }
        IncreasingWithinIsSubseq(a, b[1..]);
      }
    }
  }

  lemma DatesTail<V>(s: Series<V>)
    requires s != []
    ensures Dates(s) == [s[0].date] + Dates(s[1..])
    ensures Dates(s)[1..] == Dates(s[1..])
  {
  }

  // ---------------------------------------------------------------------------
  // Lemmas about reindexing and `.loc`

  /** What `market.reindex(ds).dropna()` keeps: a subsequence of `ds`,
      exactly the requested dates the market has, with the market's values. */
  lemma {:induction false} ReindexDropped(market: Series<real>, ds: seq<Date>)
    ensures Subseq(Dates(DropMissing(Reindex(market, ds))), ds)
    ensures forall d :: d in Dates(DropMissing(Reindex(market, ds))) <==> d in ds && d in Dates(market)
    ensures forall k :: 0 <= k < |DropMissing(Reindex(market, ds))| ==>
      Lookup(market, DropMissing(Reindex(market, ds))[k].date) == Some(DropMissing(Reindex(market, ds))[k].value)
    decreases |ds|
  {
    if ds != [] {
      var rest := DropMissing(Reindex(market, ds[1..]));
      ReindexDropped(market, ds[1..]);
      var full := Reindex(market, ds);
      assert full[0] == Entry(ds[0], Lookup(market, ds[0]));
      assert full[1..] == Reindex(market, ds[1..]);
      var m := DropMissing(full);
      if Lookup(market, ds[0]).Some? {
        assert m == [Entry(ds[0], Lookup(market, ds[0]).value)] + rest;
        DatesTail(m);
        assert m[1..] == rest;
        assert Dates(m)[1..] == Dates(rest);
        forall k | 0 <= k < |m|
          ensures Lookup(market, m[k].date) == Some(m[k].value)
        {
          if k > 0 { assert m[k] == rest[k - 1]; }
        }
        assert forall d :: d in Dates(m) <==> d == ds[0] || d in Dates(rest);
      } else {
        assert m == rest;
        SubseqCons(Dates(rest), ds[1..], ds[0]);
        assert [ds[0]] + ds[1..] == ds;
      }
    }
  }

  lemma {:induction false} LookupSkipsHead<V>(s: Series<V>, ds: seq<Date>)
    requires s != []
    requires forall d :: d in ds ==> d != s[0].date
    ensures Loc(s, ds) == Loc(s[1..], ds)
    decreases |ds|
  {
    if ds != [] {
      assert ds[0] in ds;
      assert forall d :: d in ds[1..] ==> d in ds;
      LookupSkipsHead(s, ds[1..]);
    }
  }

  /** `.loc` at dates that form a subsequence of an increasing index picks
      out a subsequence of the series itself: values unchanged, order kept. */
  lemma {:induction false} LocSubseq<V>(s: Series<V>, ds: seq<Date>)
    requires Increasing(Dates(s)) && Subseq(ds, Dates(s))
    ensures Loc(s, ds).Some? && Subseq(Loc(s, ds).value, s)
    decreases |s|
  {
    SubseqMembers(ds, Dates(s));
    if ds != [] {
      DatesTail(s);
      if ds[0] == s[0].date {
        SubseqMembers(ds[1..], Dates(s[1..]));
        forall d | d in ds[1..] ensures d != s[0].date {
          var k :| 0 <= k < |Dates(s[1..])| && Dates(s[1..])[k] == d;
          assert Dates(s)[k + 1] == d;
        }
        assert Increasing(Dates(s[1..]));
        LocSubseq(s[1..], ds[1..]);
        LookupSkipsHead(s, ds[1..]);
        var rest := Loc(s[1..], ds[1..]).value;
        assert Loc(s, ds).value == [s[0]] + rest;
        assert ([s[0]] + rest)[1..] == rest;
      } else {
        SubseqMembers(ds, Dates(s[1..]));
        forall d | d in ds ensures d != s[0].date {
          var k :| 0 <= k < |Dates(s[1..])| && Dates(s[1..])[k] == d;
          assert Dates(s)[k + 1] == d;
        }
        assert Increasing(Dates(s[1..]));
        LocSubseq(s[1..], ds);
        LookupSkipsHead(s, ds);
        SubseqCons(Loc(s, ds).value, s[1..], s[0]);
        assert [s[0]] + s[1..] == s;
      }
    }
  }
  
  /** `.loc` at dates the series carries gives the entry at each date. */
  lemma {:induction false} LocAt<V>(s: Series<V>, ds: seq<Date>)
    requires forall d :: d in ds ==> d in Dates(s)
    ensures forall k :: 0 <= k < |ds| ==> Loc(s, ds).value[k] == Entry(ds[k], Lookup(s, ds[k]).value)
    decreases |ds|
  {
    if ds != [] {
      LocAt(s, ds[1..]);
    }
  }

  lemma {:induction false} LookupAt<V>(s: Series<V>, k: nat)
    requires Increasing(Dates(s)) && k < |s|
    ensures Lookup(s, s[k].date) == Some(s[k].value)
    decreases |s|
  {
    if k > 0 {
      assert Dates(s)[0] < Dates(s)[k];
      DatesTail(s);
      assert Increasing(Dates(s[1..]));
      LookupAt(s[1..], k - 1);
    }
  }

  /** `dropna` on a series with no missing value only unwraps it. */
  lemma {:induction false} DropMissingNoneMissing<V(!new)>(x: Series<Option<V>>)
    requires forall k :: 0 <= k < |x| ==> x[k].value.Some?
    ensures |DropMissing(x)| == |x|
    ensures forall k :: 0 <= k < |x| ==> DropMissing(x)[k] == Entry(x[k].date, x[k].value.value)
    decreases |x|
  {
    if x != [] {
      DropMissingNoneMissing(x[1..]);
    }
  }

  // ---------------------------------------------------------------------------
  // What alignment guarantees

  /** After `m = market.reindex(s.index).dropna(); s = s.loc[m.index]` both
      series carry the same dates; those dates are the dates of `s` that
      the market also has, in the order of `s`; neither series has a value
      changed or an entry reordered. */
  lemma AlignKeepsCommonDates<V>(s: Series<V>, market: Series<real>)
    requires Increasing(Dates(s)) && Increasing(Dates(market))
    ensures Dates(Align(s, market).0) == Dates(Align(s, market).1)
    ensures Subseq(Dates(Align(s, market).1), Dates(s))
    ensures forall d :: d in Dates(Align(s, market).1) <==> d in Dates(s) && d in Dates(market)
    ensures Subseq(Align(s, market).0, s)
    ensures Subseq(Align(s, market).1, market)
  {
    var m := MarketOn(s, market);
    ReindexDropped(market, Dates(s));
    LocSubseq(s, Dates(m));
    SubseqIncreasing(Dates(m), Dates(s));
    IncreasingWithinIsSubseq(Dates(m), Dates(market));
    LocSubseq(market, Dates(m));
    LocAt(market, Dates(m));
    var mm := Loc(market, Dates(m)).value;
    assert |mm| == |m|;
    forall k | 0 <= k < |m| ensures mm[k] == m[k] {
      assert Dates(m)[k] == m[k].date;
    }
    assert mm == m;
  }

  /** When the market has a value on every date of `s`, as it does once
      `update_data` has aligned them, alignment keeps all of `s` and pairs it
      with the market's values at those dates, so the second alignment in
      the statistics of an aligned frame drops nothing. */
  lemma AlignWithinMarket<V>(s: Series<V>, market: Series<real>)
    requires Increasing(Dates(s)) && forall d :: d in Dates(s) ==> d in Dates(market)
    ensures Loc(market, Dates(s)).Some?
    ensures Align(s, market) == (s, Loc(market, Dates(s)).value)
  {
    var ds := Dates(s);
    var full := Reindex(market, ds);
    forall k | 0 <= k < |full| ensures full[k].value.Some? {
      ReindexAt(market, ds, k);
      assert ds[k] in ds;
    }
    DropMissingNoneMissing(full);
    var m := MarketOn(s, market);
    LocAt(market, ds);
    var mm := Loc(market, ds).value;
    assert |mm| == |Dates(mm)| == |full|;
    forall k | 0 <= k < |m| ensures m[k] == mm[k] {
      ReindexAt(market, ds, k);
    }
    assert m == mm;
    LocAt(s, ds);
    var l := Loc(s, ds).value;
    assert |l| == |Dates(l)| == |s|;
    forall k | 0 <= k < |s| ensures l[k] == s[k] {
      LookupAt(s, k);
    }
    assert l == s;
  }

  lemma {:induction false} ReindexAt<V>(s: Series<V>, ds: seq<Date>, k: nat)
    requires k < |ds|
    ensures |Reindex(s, ds)| == |ds| && Reindex(s, ds)[k] == Entry(ds[k], Lookup(s, ds[k]))
    decreases |ds|
  {
    assert |Dates(Reindex(s, ds))| == |ds|;
    if k > 0 {
      ReindexAt(s, ds[1..], k - 1);
    }
  }

  // ---------------------------------------------------------------------------
  // What percentage change guarantees

  predicate PricesComplete(s: Series<Option<real>>)
  {
    forall i :: 0 <= i < |s| ==> s[i].value.Some? && s[i].value.value != 0.0
  }

  /** With every price present and nonzero, `pct_change().dropna()` has one
      entry fewer than the prices, dated by the later day of each pair, with
      the return r_t = p_t / p_{t-1} - 1. */
  lemma DailyReturnsOfCompletePrices(s: Series<Option<real>>)
    requires |s| >= 1 && PricesComplete(s)
    ensures |DropMissing(PctChange(s))| == |s| - 1
    ensures forall k {:trigger DropMissing(PctChange(s))[k]} :: 0 <= k < |s| - 1 ==>
      DropMissing(PctChange(s))[k].date == s[k + 1].date &&
      DropMissing(PctChange(s))[k].value == s[k + 1].value.value / s[k].value.value - 1.0
  {
    var c := PctChange(s);
    FirstChangeMissing(s);
    var tail := c[1..];
    assert |tail| == |s| - 1;
    forall k | 0 <= k < |tail|
      ensures tail[k].value.Some?
    {
      ChangeOfCompletePrices(s, k + 1);
    }
    DropMissingNoneMissing(tail);
    var r := DropMissing(tail);
    assert r == DropMissing(PctChange(s));
    forall k | 0 <= k < |s| - 1
      ensures r[k].date == s[k + 1].date && r[k].value == s[k + 1].value.value / s[k].value.value - 1.0
    {
      ChangeOfCompletePrices(s, k + 1);
      assert r[k] == Entry(tail[k].date, tail[k].value.value);
    }
  }

  /** Each daily return compounds the previous price into the next:
      p_t = p_{t-1} * (1 + r_t). */
  lemma ReturnsCompoundPrices(s: Series<Option<real>>, r: Series<real>)
    requires |s| >= 1 && PricesComplete(s) && r == DropMissing(PctChange(s))
    ensures |r| == |s| - 1
    ensures forall k :: 0 <= k < |r| ==> s[k + 1].value.value == s[k].value.value * (1.0 + r[k].value)
  {
    DailyReturnsOfCompletePrices(s);
    forall k | 0 <= k < |r|
      ensures s[k + 1].value.value == s[k].value.value * (1.0 + r[k].value)
    {
      CompoundsAt(s, r, k);
    }
  }

  lemma FirstChangeMissing(s: Series<Option<real>>)
    requires |s| >= 1
    ensures DropMissing(PctChange(s)) == DropMissing(PctChange(s)[1..])
  {
    assert PctChange(s)[0].value == None;
  }

  lemma ChangeOfCompletePrices(s: Series<Option<real>>, i: nat)
    requires PricesComplete(s) && 0 < i < |s|
    ensures PctChange(s)[i] == Entry(s[i].date, Some(s[i].value.value / s[i - 1].value.value - 1.0))
  {
    var v := Values(s);
    assert LastSeen(v, i - 1) == s[i - 1].value;
    assert LastSeen(v, i) == s[i].value;
  }

  lemma CompoundsAt(s: Series<Option<real>>, r: Series<real>, k: nat)
    requires k + 1 < |s| && k < |r| && PricesComplete(s)
    requires r[k].value == s[k + 1].value.value / s[k].value.value - 1.0
    ensures s[k + 1].value.value == s[k].value.value * (1.0 + r[k].value)
  {
    Compounds(s[k].value.value, s[k + 1].value.value, r[k].value);
  }

  lemma Compounds(p: real, q: real, r: real)
    requires p != 0.0 && r == q / p - 1.0
    ensures q == p * (1.0 + r)
  {
  }

  predicate FramePricesComplete(f: Frame<Option<real>>)
    requires Rectangular(f)
  {
    forall i, j :: 0 <= i < |f.rows| && 0 <= j < |f.columns| ==>
      f.rows[i].value[j].Some? && f.rows[i].value[j].value != 0.0
  }

  /** The frame form of `DailyReturnsOfCompletePrices`: with at least one
      column and every price present and nonzero, `pct_change().dropna()`
      drops exactly the first row and every cell is that column's return. */
  lemma FrameReturnsOfCompletePrices(f: Frame<Option<real>>, g: Frame<real>)
    requires Rectangular(f) && |f.rows| >= 1 && |f.columns| >= 1 && FramePricesComplete(f)
    requires g == DropMissingRows(PctChangeFrame(f))
    ensures |g.rows| == |f.rows| - 1
    ensures forall k :: 0 <= k < |g.rows| ==>
      g.rows[k].date == f.rows[k + 1].date && |g.rows[k].value| == |f.columns| &&
      forall j :: 0 <= j < |f.columns| ==>
        g.rows[k].value[j] == f.rows[k + 1].value[j].value / f.rows[k].value[j].value - 1.0
  {
    FirstRowDropped(f);
    var tail := CompleteRows(PctChangeFrame(f))[1..];
    TailOfCompletePrices(f, tail);
    DroppedRows(f, tail, g.rows);
  }

  /** Every row after the first has all its changes, each that column's return. */
  lemma TailOfCompletePrices(f: Frame<Option<real>>, tail: Series<Option<seq<real>>>)
    requires Rectangular(f) && |f.rows| >= 1 && FramePricesComplete(f)
    requires tail == CompleteRows(PctChangeFrame(f))[1..]
    ensures |tail| == |f.rows| - 1
    ensures forall k :: 0 <= k < |tail| ==> ReturnRow(f, k + 1, tail[k])
  {
    forall k | 0 <= k < |tail| ensures ReturnRow(f, k + 1, tail[k]) {
      LaterRowComplete(f, k + 1);
    }
  }

  /** Row `i` of the change frame, once complete, holds the returns from
      day i - 1 to day i. */
  predicate ReturnRow(f: Frame<Option<real>>, i: nat, row: Entry<Option<seq<real>>>)
    requires Rectangular(f) && 0 < i < |f.rows| && FramePricesComplete(f)
  {
    row.date == f.rows[i].date && row.value.Some? && |row.value.value| == |f.columns| &&
    forall j :: 0 <= j < |f.columns| ==>
      row.value.value[j] == f.rows[i].value[j].value / f.rows[i - 1].value[j].value - 1.0
  }

  lemma DroppedRows(f: Frame<Option<real>>, tail: Series<Option<seq<real>>>, rows: Series<seq<real>>)
    requires Rectangular(f) && FramePricesComplete(f) && |tail| == |f.rows| - 1
    requires forall k :: 0 <= k < |tail| ==> ReturnRow(f, k + 1, tail[k])
    requires rows == DropMissing(tail)
    ensures |rows| == |f.rows| - 1
    ensures forall k :: 0 <= k < |rows| ==>
      rows[k].date == f.rows[k + 1].date && |rows[k].value| == |f.columns| &&
      forall j :: 0 <= j < |f.columns| ==>
        rows[k].value[j] == f.rows[k + 1].value[j].value / f.rows[k].value[j].value - 1.0
  {
    DropMissingNoneMissing(tail);
    forall k | 0 <= k < |rows|
      ensures rows[k].date == f.rows[k + 1].date && |rows[k].value| == |f.columns|
      ensures forall j :: 0 <= j < |f.columns| ==>
        rows[k].value[j] == f.rows[k + 1].value[j].value / f.rows[k].value[j].value - 1.0
    {
      assert ReturnRow(f, k + 1, tail[k]);
      assert rows[k] == Entry(tail[k].date, tail[k].value.value);
    }
  }

  lemma FirstRowDropped(f: Frame<Option<real>>)
    requires Rectangular(f) && |f.rows| >= 1 && |f.columns| >= 1
    ensures DropMissingRows(PctChangeFrame(f)).rows == DropMissing(CompleteRows(PctChangeFrame(f))[1..])
  {
    ChangeOfFirstRow(f, 0);
    assert CompleteRows(PctChangeFrame(f))[0].value.None?;
  }

  lemma LaterRowComplete(f: Frame<Option<real>>, i: nat)
    requires Rectangular(f) && 0 < i < |f.rows| && FramePricesComplete(f)
    ensures CompleteRows(PctChangeFrame(f))[i].value.Some?
    ensures CompleteRows(PctChangeFrame(f))[i].date == f.rows[i].date
    ensures |CompleteRows(PctChangeFrame(f))[i].value.value| == |f.columns|
    ensures forall j :: 0 <= j < |f.columns| ==>
      CompleteRows(PctChangeFrame(f))[i].value.value[j] == f.rows[i].value[j].value / f.rows[i - 1].value[j].value - 1.0
  {
    var g := PctChangeFrame(f);
    forall j | 0 <= j < |f.columns|
      ensures g.rows[i].value[j] == Some(f.rows[i].value[j].value / f.rows[i - 1].value[j].value - 1.0)
    {
      ColumnComplete(f, j);
      ChangeOfCompletePrices(Column(f, j), i);
    }
  }

  lemma ChangeOfFirstRow(f: Frame<Option<real>>, j: nat)
    requires Rectangular(f) && |f.rows| >= 1 && j < |f.columns|
    ensures PctChangeFrame(f).rows[0].value[j].None?
  {
    assert PctChange(Column(f, j))[0].value.None?;
  }

  lemma ColumnComplete(f: Frame<Option<real>>, j: nat)
    requires Rectangular(f) && j < |f.columns| && FramePricesComplete(f)
    ensures PricesComplete(Column(f, j))
  {
  }

  /** A day with no price repeats the last one seen (the forward fill), so
      its return is zero. */
  lemma GapGivesZeroReturn(s: Series<Option<real>>, i: nat, p: real)
    requires 0 < i < |s| && s[i].value.None?
    requires s[i - 1].value == Some(p) && p != 0.0
    ensures PctChange(s)[i].value == Some(0.0)
  {
    var v := Values(s);
    assert LastSeen(v, i - 1) == Some(p);
    assert LastSeen(v, i) == Some(p);
    assert p / p == 1.0;
  }

  // ---------------------------------------------------------------------------
  // update_data

  /** Lines 40-45 of `update_data`: the daily returns of the price frame and
      of the market, then the market kept on the return dates it has
      (line 44) and the returns kept on the market's dates (line 45). */
  function UpdateData(prices: Frame<Option<real>>, marketPrices: Series<Option<real>>): (r: (Frame<real>, Series<real>))
    requires Rectangular(prices)
    ensures Rectangular(r.0) && r.0.columns == prices.columns
    ensures Dates(r.0.rows) == Dates(r.1)
  {
    var daily := DropMissingRows(PctChangeFrame(prices));
    var market := DropMissing(PctChange(marketPrices));
    var aligned := Align(daily.rows, market);
    MarketOnWithin(daily.rows, market);
    LocWidths(daily.rows, Dates(MarketOn(daily.rows, market)), |prices.columns|);
    (Frame(prices.columns, aligned.0), aligned.1)
  }

  /** `.loc` picks whole rows, so every row keeps its width. */
  lemma LocWidths<C>(rows: Series<seq<C>>, ds: seq<Date>, w: nat)
    requires forall i :: 0 <= i < |rows| ==> |rows[i].value| == w
    requires forall d :: d in ds ==> d in Dates(rows)
    ensures forall k :: 0 <= k < |Loc(rows, ds).value| ==> |Loc(rows, ds).value[k].value| == w
  {
    LocAt(rows, ds);
    forall k | 0 <= k < |Loc(rows, ds).value| ensures |Loc(rows, ds).value[k].value| == w {
      assert Dates(Loc(rows, ds).value) == ds;
      var v := Lookup(rows, ds[k]).value;
      var i :| 0 <= i < |rows| && rows[i] == Entry(ds[k], v);
    }
  }

  /** `dropna` keeps entries in order, so it keeps an index increasing. */
  lemma {:induction false} DropMissingKeepsOrder<V(!new)>(s: Series<Option<V>>)
    ensures Subseq(Dates(DropMissing(s)), Dates(s))
    decreases |s|
  {
    if s != [] {
      DropMissingKeepsOrder(s[1..]);
      DatesTail(s);
      if s[0].value.Some? {
        var r := DropMissing(s);
        assert r == [Entry(s[0].date, s[0].value.value)] + DropMissing(s[1..]);
        assert r[1..] == DropMissing(s[1..]);
        DatesTail(r);
      } else {
        SubseqCons(Dates(DropMissing(s[1..])), Dates(s[1..]), s[0].date);
      }
    }
  }

  /** Percentage change and dropping the incomplete rows keep the dates of
      the prices, in order. */
  lemma ReturnDatesWithinPriceDates(prices: Frame<Option<real>>)
    requires Rectangular(prices)
    ensures Subseq(Dates(DropMissingRows(PctChangeFrame(prices)).rows), Dates(prices.rows))
  {
    var rows := CompleteRows(PctChangeFrame(prices));
    DropMissingKeepsOrder(rows);
    assert Dates(rows) == Dates(PctChangeFrame(prices).rows);
  }

  /** What `update_data` returns, on price histories indexed by increasing
      dates: returns and market returns on the same dates, those dates being
      the return dates on which the market has a return, in order, and both
      series taken from the unaligned returns without any value changed. */
  lemma UpdateDataAligns(prices: Frame<Option<real>>, marketPrices: Series<Option<real>>)
    requires Rectangular(prices) && Increasing(Dates(prices.rows)) && Increasing(Dates(marketPrices))
    ensures Dates(UpdateData(prices, marketPrices).0.rows) == Dates(UpdateData(prices, marketPrices).1)
    ensures Subseq(UpdateData(prices, marketPrices).0.rows, DropMissingRows(PctChangeFrame(prices)).rows)
    ensures Subseq(UpdateData(prices, marketPrices).1, DropMissing(PctChange(marketPrices)))
    ensures forall d :: d in Dates(UpdateData(prices, marketPrices).1) <==>
      d in Dates(DropMissingRows(PctChangeFrame(prices)).rows) && d in Dates(DropMissing(PctChange(marketPrices)))
    ensures Increasing(Dates(UpdateData(prices, marketPrices).1))
  {
    var daily := DropMissingRows(PctChangeFrame(prices));
    var market := DropMissing(PctChange(marketPrices));
    ReturnDatesWithinPriceDates(prices);
    SubseqIncreasing(Dates(daily.rows), Dates(prices.rows));
    DropMissingKeepsOrder(PctChange(marketPrices));
    SubseqIncreasing(Dates(market), Dates(marketPrices));
    AlignKeepsCommonDates(daily.rows, market);
    SubseqIncreasing(Dates(Align(daily.rows, market).1), Dates(daily.rows));
  }
}
