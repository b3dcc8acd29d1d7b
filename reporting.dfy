/** The top-volatility report: `SELECT ticker, AVG(vol) FROM
    volatility_weekly GROUP BY ticker ORDER BY avg_volatility DESC LIMIT 1`
    and the message built from its single row. */
module Reporting {
  import opened Sql
  import opened Schema
  import opened Stats

  /** The report's single row, or the empty result. */
  datatype Report = NoVolatilityData | TopVolatility(ticker: Option<string>, avgVolatility: Option<real>)

  /** The message sent on when the query returns no row. */
  const NO_DATA_MESSAGE := "Nenhum dado de volatilidade disponível."

  /** The tickers of the view, each once (the GROUP BY ticker groups). */
  function Tickers(view: seq<VolRow>): seq<Option<string>> {
    if view == [] then []
    else
      var rest := Tickers(view[1..]);
      if view[0].ticker in rest then rest else [view[0].ticker] + rest
  }

  /** The non-NULL vol values of ticker `t`. */
  function TickerVols(view: seq<VolRow>, t: Option<string>): seq<real> {
    if view == [] then []
    else (if view[0].ticker == t && view[0].vol.Some? then [view[0].vol.value] else []) + TickerVols(view[1..], t)
  }

  /** `AVG(vol)` for ticker `t`: NULL when all of its vol values are NULL. */
  function AvgVol(view: seq<VolRow>, t: Option<string>): (a: Option<real>)
    ensures a.Some? <==> |TickerVols(view, t)| > 0
  {
    var xs := TickerVols(view, t);
    if |xs| == 0 then None else Some(Mean(xs))
  }

  /** `ORDER BY ... DESC` in Postgres puts NULLs first: `a` sorts at or
      above `b`. */
  predicate RanksAtOrAbove(a: Option<real>, b: Option<real>) {
    a.None? || (b.Some? && a.value >= b.value)
  }

  /** The position `LIMIT 1` keeps: a first-ranked average. */
  function TopIndex(avgs: seq<Option<real>>): (k: nat)
    requires |avgs| > 0
    ensures k < |avgs|
    ensures forall i | 0 <= i < |avgs| :: RanksAtOrAbove(avgs[k], avgs[i])
  {
    if |avgs| == 1 then 0
    else
      var k := TopIndex(avgs[1..]) + 1;
      if RanksAtOrAbove(avgs[0], avgs[k]) then 0 else k
  }

  /** The report exactly as the query is written: averages over every row
      of the view, NULL averages ranked first. The row it returns is a
      ticker of the view with that ticker's average. */
  function ReportAsWritten(view: seq<VolRow>): (r: Report)
    ensures r.TopVolatility? ==> r.ticker in TickerSet(view) && r.avgVolatility == AvgVol(view, r.ticker)
  {
    var ts := Tickers(view);
    TickersSpec(view);
    if |ts| == 0 then NoVolatilityData
    else
      var avgs := seq(|ts|, i requires 0 <= i < |ts| => AvgVol(view, ts[i]));
      var k := TopIndex(avgs);
      assert ts[k] in ts;
      TopVolatility(ts[k], avgs[k])
  }

  /** `WHERE vol IS NOT NULL`. */
  function MeasuredRows(view: seq<VolRow>): (r: seq<VolRow>)
    ensures forall v | v in r :: v.vol.Some?
  {
    if view == [] then []
    else (if view[0].vol.Some? then [view[0]] else []) + MeasuredRows(view[1..])
  }

  /** The report the step is meant to give: the same query over the rows
      whose vol is not NULL, so that a ticker without any measured week
      is never ranked. */
  function ReportTopVolatility(view: seq<VolRow>): (r: Report)
    ensures Renders(r)
  {
    MeasuredRowsRender(MeasuredRows(view));
    ReportAsWritten(MeasuredRows(view))
  }

  /** Over rows whose vols are all measured, the query's average can
      always be rendered. */
  lemma MeasuredRowsRender(view: seq<VolRow>)
    requires forall i | 0 <= i < |view| :: view[i].vol.Some?
    ensures Renders(ReportAsWritten(view))
  {
    forall i | 0 <= i < |view| ensures AvgVol(view, view[i].ticker).Some? {
      assert view[i].ticker in MeasuredTickers(view);
      TickerVolsNonEmpty(view, view[i].ticker);
    }
    ReportAsWrittenSpec(view);
  }

  /** The message can be built: `:.2f` accepts a number but raises on the
      `None` that a NULL average arrives as, failing the task attempt. */
  predicate Renders(r: Report) {
    r.TopVolatility? ==> r.avgVolatility.Some?
  }

  /** The message pushed for the next task; `twoDecimals` is the `:.2f`
      rendering of an average. The no-data text is sent exactly when the
      query returned no row. */
  function Message(r: Report, twoDecimals: real -> string): (m: string)
    requires Renders(r)
    ensures m == NO_DATA_MESSAGE <==> r == NoVolatilityData
  {
    match r
    case NoVolatilityData => NO_DATA_MESSAGE
    case TopVolatility(t, avg) =>
      var m := "Ativo " + (if t.Some? then t.value else "None") + " registrou maior volatilidade média ("
        + twoDecimals(avg.value) + "%) na semana. Recomenda-se revisar hedge e limites.";
      assert m[0] == 'A' && NO_DATA_MESSAGE[0] == 'N';
      m
  }

  /** The tickers occurring in a view. */
  function TickerSet(view: seq<VolRow>): set<Option<string>> {
    set i | 0 <= i < |view| :: view[i].ticker
  }

  /** The tickers with at least one non-NULL vol. */
  function MeasuredTickers(view: seq<VolRow>): set<Option<string>> {
    set i | 0 <= i < |view| && view[i].vol.Some? :: view[i].ticker
  }

  lemma TickerSetsUnfold(view: seq<VolRow>)
    requires view != []
    ensures TickerSet(view) == {view[0].ticker} + TickerSet(view[1..])
    ensures MeasuredTickers(view) ==
      (if view[0].vol.Some? then {view[0].ticker} else {}) + MeasuredTickers(view[1..])
  {
    var rest := view[1..];
    forall t | t in TickerSet(rest) ensures t in TickerSet(view) {
      var i :| 0 <= i < |rest| && rest[i].ticker == t;
      assert view[i + 1] == rest[i];
    }
    forall t | t in MeasuredTickers(rest) ensures t in MeasuredTickers(view) {
      var i :| 0 <= i < |rest| && rest[i].vol.Some? && rest[i].ticker == t;
      assert view[i + 1] == rest[i];
    }
    forall t | t in TickerSet(view) ensures t == view[0].ticker || t in TickerSet(rest) {
      var i :| 0 <= i < |view| && view[i].ticker == t;
      if i > 0 { assert rest[i - 1] == view[i]; }
    }
    forall t | t in MeasuredTickers(view)
      ensures (view[0].vol.Some? && t == view[0].ticker) || t in MeasuredTickers(rest)
    {
      var i :| 0 <= i < |view| && view[i].vol.Some? && view[i].ticker == t;
      if i > 0 { assert rest[i - 1] == view[i]; }
    }
  }

  lemma {:induction false} TickersSpec(view: seq<VolRow>)
    ensures forall i, j | 0 <= i < j < |Tickers(view)| :: Tickers(view)[i] != Tickers(view)[j]
    ensures forall t :: t in Tickers(view) <==> t in TickerSet(view)
    ensures |Tickers(view)| == 0 <==> |view| == 0
  {
    if view != [] {
      TickersSpec(view[1..]);
      TickerSetsUnfold(view);
      assert view[0].ticker in Tickers(view);
    }
  }

  lemma {:induction false} TickerVolsNonEmpty(view: seq<VolRow>, t: Option<string>)
    ensures |TickerVols(view, t)| > 0 <==> t in MeasuredTickers(view)
  {
    if view != [] {
      TickerVolsNonEmpty(view[1..], t);
      TickerSetsUnfold(view);
    }
  }

  lemma {:induction false} MeasuredRowsSpec(view: seq<VolRow>, t: Option<string>)
    ensures TickerVols(MeasuredRows(view), t) == TickerVols(view, t)
    ensures TickerSet(MeasuredRows(view)) == MeasuredTickers(view)
  {
    var m := MeasuredRows(view);
    if view != [] {
      MeasuredRowsSpec(view[1..], t);
      TickerSetsUnfold(view);
      var rest := MeasuredRows(view[1..]);
      if view[0].vol.Some? {
        assert m == [view[0]] + rest && m[1..] == rest;
        TickerSetsUnfold(m);
      } else {
        assert m == rest;
      }
    }
  }

  /** As written, the query returns no row exactly when the view is empty. */
  lemma ReportAsWrittenEmpty(view: seq<VolRow>)
    ensures ReportAsWritten(view) == NoVolatilityData <==> |view| == 0
  {
    TickersSpec(view);
  }

  /** As written, a ticker whose every week has a NULL vol (one daily
      change in each of its weeks) outranks every measured ticker: the
      report names a ticker with a NULL average. */
  lemma ReportAsWrittenPrefersNull(view: seq<VolRow>, t: Option<string>)
    requires t in TickerSet(view)
    requires AvgVol(view, t).None?
    ensures ReportAsWritten(view).TopVolatility?
    ensures ReportAsWritten(view).avgVolatility.None?
  {
    TickersSpec(view);
    var ts := Tickers(view);
    var j :| 0 <= j < |ts| && ts[j] == t;
    var avgs := seq(|ts|, i requires 0 <= i < |ts| => AvgVol(view, ts[i]));
    assert avgs[j].None?;
  }

  /** The query as written, in full: no row exactly for an empty view; a
      row whose average can be rendered exactly when every ticker of the
      view has a measured week; and then the row's average is the largest
      of all tickers' averages. */
  lemma ReportAsWrittenSpec(view: seq<VolRow>)
    ensures ReportAsWritten(view) == NoVolatilityData <==> |view| == 0
    ensures Renders(ReportAsWritten(view)) <==> forall i | 0 <= i < |view| :: AvgVol(view, view[i].ticker).Some?
    ensures var r := ReportAsWritten(view);
      r.TopVolatility? && r.avgVolatility.Some? ==>
        forall i | 0 <= i < |view| :: AvgVol(view, view[i].ticker).Some? && AvgVol(view, view[i].ticker).value <= r.avgVolatility.value
  {
    TickersSpec(view);
    var ts := Tickers(view);
    if |ts| != 0 {
      var avgs := seq(|ts|, i requires 0 <= i < |ts| => AvgVol(view, ts[i]));
      var k := TopIndex(avgs);
      assert ReportAsWritten(view) == TopVolatility(ts[k], avgs[k]);
      if avgs[k].None? {
        assert ts[k] in TickerSet(view);
        var i :| 0 <= i < |view| && view[i].ticker == ts[k];
        assert AvgVol(view, view[i].ticker).None?;
      } else {
        forall i | 0 <= i < |view|
          ensures AvgVol(view, view[i].ticker).Some? && AvgVol(view, view[i].ticker).value <= avgs[k].value
        {
          assert view[i].ticker in TickerSet(view);
          var j :| 0 <= j < |ts| && ts[j] == view[i].ticker;
          assert RanksAtOrAbove(avgs[k], avgs[j]);
        }
      }
    }
  }

  /** A two-row view on which the query as written and the intended report
      disagree: a measured ticker and a ticker with a single daily change. */
  lemma ReportAsWrittenCounterexample()
    ensures var view := [VolRow(Some("AAA"), Some(19352), Some(5.0)), VolRow(Some("BBB"), Some(19352), None)];
      ReportAsWritten(view) == TopVolatility(Some("BBB"), None)
      && ReportTopVolatility(view) == TopVolatility(Some("AAA"), Some(5.0))
  {
    var view := [VolRow(Some("AAA"), Some(19352), Some(5.0)), VolRow(Some("BBB"), Some(19352), None)];
    assert view[1..] == [view[1]];
    assert view[1..][1..] == [];
    assert Tickers(view) == [Some("AAA"), Some("BBB")];
    assert TickerVols(view, Some("BBB")) == [];
    assert TickerVols(view, Some("AAA")) == [5.0];
    var m := MeasuredRows(view);
    assert m == [view[0]];
    assert Tickers(m) == [Some("AAA")];
    assert TickerVols(m, Some("AAA")) == [5.0];
  }

  /** The intended report: no row exactly when no week has a measured vol
      (in particular when the view is empty), and otherwise a ticker of the
      view whose average vol is the largest of all tickers' averages. */
  lemma NoMeasuredTickers(view: seq<VolRow>)
    ensures MeasuredTickers(view) == {} <==> forall i | 0 <= i < |view| :: view[i].vol.None?
  {
    if exists i | 0 <= i < |view| :: view[i].vol.Some? {
      var i :| 0 <= i < |view| && view[i].vol.Some?;
      assert view[i].ticker in MeasuredTickers(view);
    }
  }

  lemma ReportTopVolatilitySpec(view: seq<VolRow>)
    ensures ReportTopVolatility(view) == NoVolatilityData <==> forall i | 0 <= i < |view| :: view[i].vol.None?
    ensures ReportTopVolatility(view).TopVolatility? ==>
      var t := ReportTopVolatility(view).ticker;
      var a := ReportTopVolatility(view).avgVolatility;
      a.Some? && AvgVol(view, t) == a
      && t in TickerSet(view)
      && forall i | 0 <= i < |view| && AvgVol(view, view[i].ticker).Some? ::
           AvgVol(view, view[i].ticker).value <= a.value
  {
    var m := MeasuredRows(view);
    TickersSpec(m);
    MeasuredRowsSpec(view, None);
    NoMeasuredTickers(view);
    if |m| != 0 {
      assert m[0].ticker in TickerSet(m);
      ReportTopIsMaximal(view);
    } else {
      assert TickerSet(m) == {};
    }
  }

  lemma ReportTopIsMaximal(view: seq<VolRow>)
    requires |MeasuredRows(view)| != 0
    ensures ReportTopVolatility(view).TopVolatility?
    ensures var t := ReportTopVolatility(view).ticker;
      var a := ReportTopVolatility(view).avgVolatility;
      a.Some? && AvgVol(view, t) == a
      && t in TickerSet(view)
      && forall i | 0 <= i < |view| && AvgVol(view, view[i].ticker).Some? ::
           AvgVol(view, view[i].ticker).value <= a.value
  {
    var m := MeasuredRows(view);
    TickersSpec(m);
    var ts := Tickers(m);
    var avgs := seq(|ts|, i requires 0 <= i < |ts| => AvgVol(m, ts[i]));
    var k := TopIndex(avgs);
    var t := ts[k];
    MeasuredRowsSpec(view, t);
    assert t in ts;
    TickerVolsNonEmpty(view, t);
    assert t in TickerSet(view);
    forall i | 0 <= i < |view| && AvgVol(view, view[i].ticker).Some?
      ensures AvgVol(view, view[i].ticker).value <= avgs[k].value
    {
      var u := view[i].ticker;
      MeasuredRowsSpec(view, u);
      TickerVolsNonEmpty(view, u);
      assert u in ts;
      var j :| 0 <= j < |ts| && ts[j] == u;
      assert RanksAtOrAbove(avgs[k], avgs[j]);
    }
  }

  /** The intended report always carries an average, so its message can
      be rendered; over a view with no measured week it is the no-data
      message. */
  lemma ReportMessage(view: seq<VolRow>, twoDecimals: real -> string)
    ensures var r := ReportTopVolatility(view);
      (r.TopVolatility? ==> r.avgVolatility.Some?)
      && ((forall i | 0 <= i < |view| :: view[i].vol.None?) ==> Message(r, twoDecimals) == NO_DATA_MESSAGE)
  {
    ReportTopVolatilitySpec(view);
  }
}
