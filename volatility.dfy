/** The materialized view `volatility_weekly`: per (ticker, week) the
    STDDEV_SAMP of the non-NULL daily changes. */
module Volatility {
  import opened Sql
  import opened Calendar
  import opened Schema
  import opened Stats

  /** A GROUP BY key: ticker and `DATE_TRUNC('week', data_id)`. */
  datatype GroupKey = GroupKey(ticker: Option<string>, week: Option<Date>)

  /** The group of a fact row; a NULL date truncates to a NULL week. */
  function GroupOf(f: FactRow): GroupKey {
    GroupKey(f.ticker, if f.dataId.Some? then Some(WeekStart(f.dataId.value)) else None)
  }

  /** `WHERE variacao_diaria IS NOT NULL`. */
  predicate Observed(f: FactRow) {
    f.variacaoDiaria.Some?
  }

  predicate InGroup(f: FactRow, g: GroupKey) {
    Observed(f) && GroupOf(f) == g
  }

  /** The groups the query forms, each once. */
  function Groups(facts: seq<FactRow>): seq<GroupKey> {
    if facts == [] then []
    else
      var rest := Groups(facts[1..]);
      if Observed(facts[0]) && GroupOf(facts[0]) !in rest then [GroupOf(facts[0])] + rest else rest
  }

  /** The daily changes aggregated in group `g`, in table order. */
  function GroupValues(facts: seq<FactRow>, g: GroupKey): seq<real> {
    if facts == [] then []
    else (if InGroup(facts[0], g) then [facts[0].variacaoDiaria.value] else []) + GroupValues(facts[1..], g)
  }

  /** `sqrt` is a square root on the non-negative reals. */
  ghost predicate IsSquareRoot(sqrt: real -> real) {
    forall x | x >= 0.0 :: sqrt(x) >= 0.0 && sqrt(x) * sqrt(x) == x
  }

  /** STDDEV_SAMP: NULL for fewer than two values, otherwise the root of
      the sample variance. The root is the database's `sqrt`; when it is a
      square root, the deviation is non-negative and squares to the
      variance. */
  function StddevSamp(xs: seq<real>, sqrt: real -> real): (r: Option<real>)
    ensures r.Some? <==> |xs| >= 2
    ensures r.Some? && IsSquareRoot(sqrt) ==> r.value >= 0.0 && r.value * r.value == SampleVariance(xs)
  {
    if |xs| < 2 then None else Some(sqrt(SampleVariance(xs)))
  }

  /** The content `REFRESH MATERIALIZED VIEW volatility_weekly` computes.
      Every row is the group of some fact row with a daily change. */
  function WeeklyVolatility(facts: seq<FactRow>, sqrt: real -> real): (r: seq<VolRow>)
    ensures forall i | 0 <= i < |r| :: exists j | 0 <= j < |facts| :: InGroup(facts[j], KeyOf(r[i]))
  {
    var gs := Groups(facts);
    GroupsSpec(facts);
    var view := seq(|gs|, i requires 0 <= i < |gs| => VolRow(gs[i].ticker, gs[i].week, StddevSamp(GroupValues(facts, gs[i]), sqrt)));
    assert forall i | 0 <= i < |view| :: KeyOf(view[i]) == gs[i] && gs[i] in gs;
    view
  }

  function KeyOf(v: VolRow): GroupKey {
    GroupKey(v.ticker, v.week)
  }

  /** The (ticker, week) pairs present in a view. */
  function ViewKeys(view: seq<VolRow>): set<GroupKey> {
    set i | 0 <= i < |view| :: KeyOf(view[i])
  }

  /** The groups of the fact rows that have a non-NULL daily change. */
  function ObservedGroups(facts: seq<FactRow>): set<GroupKey> {
    set j | 0 <= j < |facts| && Observed(facts[j]) :: GroupOf(facts[j])
  }

  /** The fact rows with a non-NULL daily change. */
  function ObservedFacts(facts: seq<FactRow>): (r: seq<FactRow>)
    ensures forall f | f in r :: Observed(f)
  {
    if facts == [] then []
    else (if Observed(facts[0]) then [facts[0]] else []) + ObservedFacts(facts[1..])
  }

  lemma {:induction false} GroupsSpec(facts: seq<FactRow>)
    ensures forall i, j | 0 <= i < j < |Groups(facts)| :: Groups(facts)[i] != Groups(facts)[j]
    ensures forall g :: g in Groups(facts) <==> exists j | 0 <= j < |facts| :: InGroup(facts[j], g)
  {
    if facts != [] {
      GroupsSpec(facts[1..]);
      forall g ensures (exists j | 0 <= j < |facts| :: InGroup(facts[j], g))
                   <==> InGroup(facts[0], g) || exists j | 0 <= j < |facts[1..]| :: InGroup(facts[1..][j], g)
      {
        if exists j | 0 <= j < |facts| :: InGroup(facts[j], g) {
          var j :| 0 <= j < |facts| && InGroup(facts[j], g);
          if j > 0 { assert facts[1..][j - 1] == facts[j]; }
        }
        if exists j | 0 <= j < |facts[1..]| :: InGroup(facts[1..][j], g) {
          var j :| 0 <= j < |facts[1..]| && InGroup(facts[1..][j], g);
          assert facts[j + 1] == facts[1..][j];
        }
      }
    }
  }

  lemma {:induction false} GroupValuesNonEmpty(facts: seq<FactRow>, g: GroupKey)
    ensures |GroupValues(facts, g)| > 0 <==> exists j | 0 <= j < |facts| :: InGroup(facts[j], g)
  {
    if facts != [] {
      GroupValuesNonEmpty(facts[1..], g);
      if exists j | 0 <= j < |facts| :: InGroup(facts[j], g) {
        var j :| 0 <= j < |facts| && InGroup(facts[j], g);
        if j > 0 { assert facts[1..][j - 1] == facts[j]; }
      }
      if exists j | 0 <= j < |facts[1..]| :: InGroup(facts[1..][j], g) {
        var j :| 0 <= j < |facts[1..]| && InGroup(facts[1..][j], g);
        assert facts[j + 1] == facts[1..][j];
      }
    }
  }

  /** The view has one row per (ticker, week) group holding at least one
      non-NULL daily change, and no group twice. */
  lemma WeeklyVolatilityGroups(facts: seq<FactRow>, sqrt: real -> real)
    ensures var view := WeeklyVolatility(facts, sqrt);
      (forall i, j | 0 <= i < j < |view| :: KeyOf(view[i]) != KeyOf(view[j]))
      && ViewKeys(view) == ObservedGroups(facts)
  {
    GroupsSpec(facts);
    var view := WeeklyVolatility(facts, sqrt);
    var gs := Groups(facts);
    assert forall i | 0 <= i < |view| :: KeyOf(view[i]) == gs[i];
    forall g | g in ObservedGroups(facts) ensures g in ViewKeys(view) {
      var j :| 0 <= j < |facts| && Observed(facts[j]) && GroupOf(facts[j]) == g;
      assert InGroup(facts[j], g);
      assert g in gs;
      var i :| 0 <= i < |gs| && gs[i] == g;
      assert KeyOf(view[i]) == g;
    }
    forall g | g in ViewKeys(view) ensures g in ObservedGroups(facts) {
      var i :| 0 <= i < |view| && KeyOf(view[i]) == g;
      assert gs[i] in gs;
      var j :| 0 <= j < |facts| && InGroup(facts[j], g);
    }
  }

  /** Each row's vol: a group has at least one value; with exactly one it
      is NULL, with two or more it is the root of their sample variance,
      which is non-negative, and with a true square root the vol is the
      non-negative root. */
  lemma WeeklyVolatilityValue(facts: seq<FactRow>, sqrt: real -> real, i: nat)
    requires i < |WeeklyVolatility(facts, sqrt)|
    ensures var row := WeeklyVolatility(facts, sqrt)[i];
      var xs := GroupValues(facts, KeyOf(row));
      |xs| >= 1
      && (row.vol.None? <==> |xs| == 1)
      && (|xs| >= 2 ==> row.vol == Some(sqrt(SampleVariance(xs))) && SampleVariance(xs) >= 0.0)
      && (|xs| >= 2 && IsSquareRoot(sqrt) ==> row.vol.value >= 0.0 && row.vol.value * row.vol.value == SampleVariance(xs))
  {
    GroupsSpec(facts);
    var g := Groups(facts)[i];
    assert g in Groups(facts);
    assert KeyOf(WeeklyVolatility(facts, sqrt)[i]) == g;
    GroupValuesNonEmpty(facts, g);
  }

  lemma {:induction false} ObservedFactsSameGroups(facts: seq<FactRow>)
    ensures Groups(ObservedFacts(facts)) == Groups(facts)
    ensures forall g :: GroupValues(ObservedFacts(facts), g) == GroupValues(facts, g)
  {
    if facts != [] {
      ObservedFactsSameGroups(facts[1..]);
      var rest := ObservedFacts(facts[1..]);
      if Observed(facts[0]) {
        assert ObservedFacts(facts) == [facts[0]] + rest;
        assert ObservedFacts(facts)[1..] == rest;
      } else {
        assert ObservedFacts(facts) == rest;
      }
    }
  }

  /** Rows whose daily change is NULL never contribute: the view is the
      same with them removed. */
  lemma WeeklyVolatilityIgnoresNulls(facts: seq<FactRow>, sqrt: real -> real)
    ensures WeeklyVolatility(ObservedFacts(facts), sqrt) == WeeklyVolatility(facts, sqrt)
  {
    ObservedFactsSameGroups(facts);
  }
}
