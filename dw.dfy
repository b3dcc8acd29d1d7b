/** The warehouse `postgres_dw`: its five relations, the steps that write
    them, and a class holding them that the DAG's tasks update in place. */
module Dw {
  import opened Sql
  import opened Calendar
  import opened Dimension
  import opened Schema
  import opened Quality
  import opened Facts
  import opened Volatility
  import opened Reporting

  /** The content of the warehouse at one moment. */
  datatype Tables = Tables(
    staging: seq<StagingRow>,
    dimInstrumento: DimInstrumento,
    dimTempo: DimTempo,
    fact: seq<FactRow>,
    volatilityWeekly: seq<VolRow>)

  /** Why a SQL step is rolled back. */
  datatype StepError = NotNullViolation(table: string) | ForeignKeyViolation(table: string)

  /** A transactional step either commits new tables or is rolled back,
      leaving the warehouse as it was. */
  datatype StepOutcome = Done(tables: Tables) | Rejected(error: StepError)

  /** The columns inserted for a new ticker: `'Ativo ' || symbol, 'Acao'`. */
  function InstrumentOf(symbol: string): InstrumentAttrs {
    InstrumentAttrs("Ativo " + symbol, "Acao")
  }

  /** The columns inserted for a new date: its year, month and day of week. */
  function TempoOf(d: Date): (a: TempoAttrs)
    ensures 1 <= a.mes <= 12 && 0 <= a.diaDaSemana <= 6
  {
    TempoAttrs(Year(d), Month(d), DayOfWeek(d))
  }

  /** The non-NULL symbols of staging. */
  function StagingSymbols(rows: seq<StagingRow>): set<string> {
    set i | 0 <= i < |rows| && rows[i].symbol.Some? :: rows[i].symbol.value
  }

  /** The non-NULL dates of staging. */
  function StagingDates(rows: seq<StagingRow>): set<Date> {
    set i | 0 <= i < |rows| && rows[i].date.Some? :: rows[i].date.value
  }

  /** `SELECT DISTINCT symbol FROM staging` as keys for `ticker`: NULL when
      some symbol is NULL (the PRIMARY KEY refuses it). */
  function Symbols(rows: seq<StagingRow>): (r: Option<seq<string>>)
    ensures r.None? <==> exists i | 0 <= i < |rows| :: rows[i].symbol.None?
    ensures r.Some? ==> |r.value| == |rows| && forall i | 0 <= i < |rows| :: r.value[i] == rows[i].symbol.value
  {
    if rows == [] then Some([])
    else
      var rest := Symbols(rows[1..]);
      if rows[0].symbol.None? || rest.None? then
        assert rows[0].symbol.Some? ==> rows[1..][0] == rows[1];
        None
      else Some([rows[0].symbol.value] + rest.value)
  }

  /** `SELECT DISTINCT date FROM staging` as keys for `data_id`. */
  function Dates(rows: seq<StagingRow>): (r: Option<seq<Date>>)
    ensures r.None? <==> exists i | 0 <= i < |rows| :: rows[i].date.None?
    ensures r.Some? ==> |r.value| == |rows| && forall i | 0 <= i < |rows| :: r.value[i] == rows[i].date.value
  {
    if rows == [] then Some([])
    else
      var rest := Dates(rows[1..]);
      if rows[0].date.None? || rest.None? then
        assert rows[0].date.Some? ==> rows[1..][0] == rows[1];
        None
      else Some([rows[0].date.value] + rest.value)
  }

  /** The FOREIGN KEY constraints of the fact table: every non-NULL ticker
      and date is a key of its dimension. */
  predicate ReferencesDims(fact: seq<FactRow>, di: DimInstrumento, dt: DimTempo) {
    forall i | 0 <= i < |fact| ::
      (fact[i].ticker.Some? ==> fact[i].ticker.value in Keys(di))
      && (fact[i].dataId.Some? ==> fact[i].dataId.value in Keys(dt))
  }

  /** The constraints the database maintains on the warehouse. */
  predicate ValidTables(t: Tables) {
    UniqueKeys(t.dimInstrumento) && UniqueKeys(t.dimTempo)
    && ReferencesDims(t.fact, t.dimInstrumento, t.dimTempo)
  }

  /** `create_dim_tables`: both upserts in one transaction. It writes only
      the dimensions, and is rolled back only for a NULL key. */
  function CreateDimTablesStep(t: Tables): (r: StepOutcome)
    ensures r.Done? ==> r.tables.staging == t.staging && r.tables.fact == t.fact && r.tables.volatilityWeekly == t.volatilityWeekly
    ensures r.Rejected? ==> r.error.NotNullViolation?
  {
    match Symbols(t.staging)
    case None => Rejected(NotNullViolation("dim_instrumento"))
    case Some(symbols) =>
      match Dates(t.staging)
      case None => Rejected(NotNullViolation("dim_tempo"))
      case Some(dates) =>
        Done(t.(dimInstrumento := InsertMissing(t.dimInstrumento, symbols, InstrumentOf),
                dimTempo := InsertMissing(t.dimTempo, dates, TempoOf)))
  }

  /** `load_fact_table`: TRUNCATE and INSERT in one transaction, rolled back
      when a fact row would reference a missing dimension key. A commit
      writes only the fact table and leaves it meeting its foreign keys. */
  function LoadFactTableStep(t: Tables): (r: StepOutcome)
    ensures r.Done? ==>
      r.tables.staging == t.staging && r.tables.dimInstrumento == t.dimInstrumento
      && r.tables.dimTempo == t.dimTempo && r.tables.volatilityWeekly == t.volatilityWeekly
      && ReferencesDims(r.tables.fact, r.tables.dimInstrumento, r.tables.dimTempo)
    ensures r.Rejected? ==> r.error.ForeignKeyViolation?
  {
    var fact := BuildFacts(t.staging);
    if ReferencesDims(fact, t.dimInstrumento, t.dimTempo) then Done(t.(fact := fact))
    else Rejected(ForeignKeyViolation("fact_movimentacao_diaria"))
  }

  /** `calculate_volatility_view`: the view is recomputed from the facts;
      no table is written, so the constraints keep holding. */
  function RefreshStep(t: Tables, sqrt: real -> real): (r: Tables)
    ensures r.staging == t.staging && r.dimInstrumento == t.dimInstrumento && r.dimTempo == t.dimTempo && r.fact == t.fact
    ensures ValidTables(t) ==> ValidTables(r)
  {
    t.(volatilityWeekly := WeeklyVolatility(t.fact, sqrt))
  }

  lemma SymbolKeys(rows: seq<StagingRow>)
    requires Symbols(rows).Some?
    ensures Elems(Symbols(rows).value) == StagingSymbols(rows)
  {
    var s := Symbols(rows).value;
    forall k | k in StagingSymbols(rows) ensures k in Elems(s) {
      var i :| 0 <= i < |rows| && rows[i].symbol.Some? && rows[i].symbol.value == k;
      assert s[i] == k;
    }
  }

  lemma DateKeys(rows: seq<StagingRow>)
    requires Dates(rows).Some?
    ensures Elems(Dates(rows).value) == StagingDates(rows)
  {
    var s := Dates(rows).value;
    forall k | k in StagingDates(rows) ensures k in Elems(s) {
      var i :| 0 <= i < |rows| && rows[i].date.Some? && rows[i].date.value == k;
      assert s[i] == k;
    }
  }

  /** The dimension step is rolled back exactly when staging has a NULL
      symbol or a NULL date; the quality gate rules out only the latter. */
  lemma CreateDimTablesRejects(t: Tables)
    ensures CreateDimTablesStep(t).Rejected? <==>
      exists i | 0 <= i < |t.staging| :: t.staging[i].symbol.None? || t.staging[i].date.None?
  {
  }

  /** After the dimension step: every staging symbol is a ticker and every
      staging date a `data_id`; the existing rows, with their columns, are
      untouched; each new row's columns derive from its key; keys stay
      unique; staging, facts and the view are unchanged. */
  lemma CreateDimTablesSpec(t: Tables)
    requires CreateDimTablesStep(t).Done?
    ensures var u := CreateDimTablesStep(t).tables;
      u.staging == t.staging && u.fact == t.fact && u.volatilityWeekly == t.volatilityWeekly
      && Keys(u.dimInstrumento) == Keys(t.dimInstrumento) + StagingSymbols(t.staging)
      && Keys(u.dimTempo) == Keys(t.dimTempo) + StagingDates(t.staging)
      && |t.dimInstrumento| <= |u.dimInstrumento| && u.dimInstrumento[..|t.dimInstrumento|] == t.dimInstrumento
      && |t.dimTempo| <= |u.dimTempo| && u.dimTempo[..|t.dimTempo|] == t.dimTempo
      && (forall i | |t.dimInstrumento| <= i < |u.dimInstrumento| ::
            u.dimInstrumento[i].attrs == InstrumentAttrs("Ativo " + u.dimInstrumento[i].key, "Acao"))
      && (forall i | |t.dimTempo| <= i < |u.dimTempo| ::
            var d := u.dimTempo[i].key;
            u.dimTempo[i].attrs == TempoAttrs(Year(d), Month(d), DayOfWeek(d))
            && 0 <= u.dimTempo[i].attrs.diaDaSemana <= 6)
      && (ValidTables(t) ==> ValidTables(u))
  {
    var symbols := Symbols(t.staging).value;
    var dates := Dates(t.staging).value;
    var u := CreateDimTablesStep(t).tables;
    SymbolKeys(t.staging);
    DateKeys(t.staging);
    InsertMissingKeys(t.dimInstrumento, symbols, InstrumentOf);
    InsertMissingKeys(t.dimTempo, dates, TempoOf);
    InsertMissingKeepsRows(t.dimInstrumento, symbols, InstrumentOf);
    InsertMissingKeepsRows(t.dimTempo, dates, TempoOf);
    InsertMissingNewRows(t.dimInstrumento, symbols, InstrumentOf);
    InsertMissingNewRows(t.dimTempo, dates, TempoOf);
    if ValidTables(t) {
      InsertMissingUnique(t.dimInstrumento, symbols, InstrumentOf);
      InsertMissingUnique(t.dimTempo, dates, TempoOf);
    }
  }

  /** Re-running the dimension step on its own result changes nothing. */
  lemma CreateDimTablesIdempotent(t: Tables)
    requires CreateDimTablesStep(t).Done?
    ensures CreateDimTablesStep(CreateDimTablesStep(t).tables) == CreateDimTablesStep(t)
  {
    var symbols := Symbols(t.staging).value;
    var dates := Dates(t.staging).value;
    InsertMissingIdempotent(t.dimInstrumento, symbols, InstrumentOf);
    InsertMissingIdempotent(t.dimTempo, dates, TempoOf);
  }

  /** After the fact step the fact table holds exactly the rows built from
      staging (the earlier rows are gone); nothing else changes. The step
      is rolled back exactly when a staging symbol or date is missing from
      its dimension. */
  lemma LoadFactTableSpec(t: Tables)
    ensures LoadFactTableStep(t).Rejected? <==>
      exists i | 0 <= i < |t.staging| ::
        (t.staging[i].symbol.Some? && t.staging[i].symbol.value !in Keys(t.dimInstrumento))
        || (t.staging[i].date.Some? && t.staging[i].date.value !in Keys(t.dimTempo))
    ensures LoadFactTableStep(t).Done? ==>
      LoadFactTableStep(t).tables == t.(fact := BuildFacts(t.staging))
      && (ValidTables(t) ==> ValidTables(LoadFactTableStep(t).tables))
  {
  }

  /** Once the dimension step has committed, the fact step always can:
      every staging symbol and date then has its dimension row. */
  lemma DimensionsCoverStaging(t: Tables)
    requires CreateDimTablesStep(t).Done?
    ensures LoadFactTableStep(CreateDimTablesStep(t).tables).Done?
  {
    CreateDimTablesSpec(t);
    var u := CreateDimTablesStep(t).tables;
    var fact := BuildFacts(u.staging);
    forall i | 0 <= i < |fact|
      ensures (fact[i].ticker.Some? ==> fact[i].ticker.value in Keys(u.dimInstrumento))
           && (fact[i].dataId.Some? ==> fact[i].dataId.value in Keys(u.dimTempo))
    {
      if fact[i].ticker.Some? { assert fact[i].ticker.value in StagingSymbols(u.staging); }
      if fact[i].dataId.Some? { assert fact[i].dataId.value in StagingDates(u.staging); }
    }
  }

  /** The warehouse as the DAG's tasks see it, updated in place. */
  class Warehouse {
    var staging: seq<StagingRow>
    var dimInstrumento: DimInstrumento
    var dimTempo: DimTempo
    var fact: seq<FactRow>
    var volatilityWeekly: seq<VolRow>

    function Snapshot(): Tables
      reads this
    {
      Tables(staging, dimInstrumento, dimTempo, fact, volatilityWeekly)
    }

    ghost predicate Valid()
      reads this
    {
      ValidTables(Snapshot())
    }

    /** An empty warehouse: every table exists and holds no row. */
    constructor ()
      ensures Valid()
      ensures Snapshot() == Tables([], [], [], [], [])
    {
      staging, dimInstrumento, dimTempo, fact, volatilityWeekly := [], [], [], [], [];
    }

    /** `_load_staging`: TRUNCATE staging, then COPY the input rows in. */
    method LoadStaging(rows: seq<StagingRow>)
      requires Valid()
      modifies this
      ensures Valid()
      ensures Snapshot() == old(Snapshot()).(staging := rows)
    {
      staging := [];
      staging := rows;
    }

    /** `run_data_quality_checks`: reads staging, writes nothing. */
    method RunDataQualityChecks() returns (ok: bool)
      ensures ok == QualityGate(staging)
      ensures ok <==> |staging| == EXPECTED_ROW_COUNT && NoMissingCritical(staging)
    {
      ok := CheckValue(staging) == Some(true);
      QualityGateSpec(staging);
    }

    /** `create_dim_tables`. */
    method CreateDimTables() returns (err: Option<StepError>)
      requires Valid()
      modifies this
      ensures Valid()
      ensures CreateDimTablesStep(old(Snapshot())).Done? ==>
        err.None? && Snapshot() == CreateDimTablesStep(old(Snapshot())).tables
      ensures CreateDimTablesStep(old(Snapshot())).Rejected? ==>
        err == Some(CreateDimTablesStep(old(Snapshot())).error) && Snapshot() == old(Snapshot())
    {
      var outcome := CreateDimTablesStep(Snapshot());
      if outcome.Done? {
        CreateDimTablesSpec(Snapshot());
        dimInstrumento, dimTempo := outcome.tables.dimInstrumento, outcome.tables.dimTempo;
        err := None;
      } else {
        err := Some(outcome.error);
      }
    }

    /** `load_fact_table`. */
    method LoadFactTable() returns (err: Option<StepError>)
      requires Valid()
      modifies this
      ensures Valid()
      ensures LoadFactTableStep(old(Snapshot())).Done? ==>
        err.None? && Snapshot() == LoadFactTableStep(old(Snapshot())).tables
      ensures LoadFactTableStep(old(Snapshot())).Rejected? ==>
        err == Some(LoadFactTableStep(old(Snapshot())).error) && Snapshot() == old(Snapshot())
    {
      var outcome := LoadFactTableStep(Snapshot());
      if outcome.Done? {
        LoadFactTableSpec(Snapshot());
        fact := outcome.tables.fact;
        err := None;
      } else {
        err := Some(outcome.error);
      }
    }

    /** `calculate_volatility_view`: REFRESH MATERIALIZED VIEW. */
    method CalculateVolatilityView(sqrt: real -> real)
      requires Valid()
      modifies this
      ensures Valid()
      ensures Snapshot() == RefreshStep(old(Snapshot()), sqrt)
    {
      volatilityWeekly := WeeklyVolatility(fact, sqrt);
    }

    /** `_report_top_volatility`: runs its query against the view and
        writes nothing. No row comes back exactly when the view is empty;
        the row's average is NULL exactly when some ticker of the view has
        no measured week, and otherwise it is the largest average. */
    method ReportTopVolatility() returns (r: Report)
      ensures r == ReportAsWritten(volatilityWeekly)
      ensures r == NoVolatilityData <==> |volatilityWeekly| == 0
      ensures r.TopVolatility? ==>
        r.ticker in TickerSet(volatilityWeekly) && AvgVol(volatilityWeekly, r.ticker) == r.avgVolatility
      ensures Renders(r) <==> forall i | 0 <= i < |volatilityWeekly| :: AvgVol(volatilityWeekly, volatilityWeekly[i].ticker).Some?
      ensures r.TopVolatility? && r.avgVolatility.Some? ==>
        forall i | 0 <= i < |volatilityWeekly| ::
          AvgVol(volatilityWeekly, volatilityWeekly[i].ticker).value <= r.avgVolatility.value
    {
      r := ReportAsWritten(volatilityWeekly);
      ReportAsWrittenSpec(volatilityWeekly);
    }
  }
}
