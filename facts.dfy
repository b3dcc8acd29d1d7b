/** The fact build: one fact row per staging row, with the daily change
    computed by `LAG(close) OVER (PARTITION BY symbol ORDER BY date)`. */
module Facts {
  import opened Sql
  import opened Calendar
  import opened Schema

  /** `ORDER BY date` ascending: NULL dates sort after every date. */
  predicate DateBefore(a: Option<Date>, b: Option<Date>) {
    a.Some? && (b.None? || a.value < b.value)
  }

  /** Row `j` comes before row `i` in the window order. SQL leaves the
      order among equal dates open; the model settles it by staging
      position, which is one order Postgres may use. */
  predicate SortsBefore(rows: seq<StagingRow>, j: nat, i: nat)
    requires j < |rows| && i < |rows|
  {
    DateBefore(rows[j].date, rows[i].date) || (rows[j].date == rows[i].date && j < i)
  }

  /** Row `j` is an earlier row of row `i`'s partition (the same symbol,
      a NULL symbol being its own partition). */
  predicate Precedes(rows: seq<StagingRow>, j: nat, i: nat)
    requires j < |rows| && i < |rows|
  {
    rows[j].symbol == rows[i].symbol && SortsBefore(rows, j, i)
  }

  /** Row `j` is the row LAG reads for row `i`: the last row of the
      partition before `i`. */
  ghost predicate IsLagRow(rows: seq<StagingRow>, i: nat, j: nat)
    requires j < |rows| && i < |rows|
  {
    Precedes(rows, j, i)
    && forall k | 0 <= k < |rows| && Precedes(rows, k, i) :: k == j || SortsBefore(rows, k, j)
  }

  lemma SortsBeforeTransitive(rows: seq<StagingRow>, a: nat, b: nat, c: nat)
    requires a < |rows| && b < |rows| && c < |rows|
    requires SortsBefore(rows, a, b) && SortsBefore(rows, b, c)
    ensures SortsBefore(rows, a, c)
  {
  }

  /** The best candidate for LAG among rows `0 .. n-1`. */
  function LagScan(rows: seq<StagingRow>, i: nat, n: nat): (r: Option<nat>)
    requires i < |rows| && n <= |rows|
    ensures r.Some? ==> r.value < n
  {
    if n == 0 then None
    else
      var best := LagScan(rows, i, n - 1);
      if Precedes(rows, n - 1, i) && (best.None? || SortsBefore(rows, best.value, n - 1)) then Some(n - 1)
      else best
  }

  /** The index of the row LAG reads for row `i`, if any. */
  function LagIndex(rows: seq<StagingRow>, i: nat): (r: Option<nat>)
    requires i < |rows|
    ensures r.Some? ==> r.value < |rows|
  {
    LagScan(rows, i, |rows|)
  }

  lemma {:induction false} LagScanSpec(rows: seq<StagingRow>, i: nat, n: nat)
    requires i < |rows| && n <= |rows|
    ensures var r := LagScan(rows, i, n);
      (r.None? <==> forall k | 0 <= k < n :: !Precedes(rows, k, i))
      && (r.Some? ==>
            Precedes(rows, r.value, i)
            && forall k | 0 <= k < n && Precedes(rows, k, i) :: k == r.value || SortsBefore(rows, k, r.value))
  {
    if n > 0 {
      LagScanSpec(rows, i, n - 1);
      var best := LagScan(rows, i, n - 1);
      var m := n - 1;
      if Precedes(rows, m, i) && (best.None? || SortsBefore(rows, best.value, m)) {
        forall k | 0 <= k < n && Precedes(rows, k, i) ensures k == m || SortsBefore(rows, k, m) {
          if k != m && best.Some? && k != best.value {
            SortsBeforeTransitive(rows, k, best.value, m);
          }
        }
      } else if Precedes(rows, m, i) {
        // m does not sort after best, so it sorts before it (the order is total on indices)
        assert best.Some? && m != best.value;
        assert SortsBefore(rows, m, best.value);
      }
    }
  }

  /** LagIndex is the row LAG reads: absent exactly when no earlier row of
      the partition exists, and otherwise the last such row. */
  lemma LagIndexSpec(rows: seq<StagingRow>, i: nat)
    requires i < |rows|
    ensures LagIndex(rows, i).None? <==> forall k | 0 <= k < |rows| :: !Precedes(rows, k, i)
    ensures LagIndex(rows, i).Some? ==> IsLagRow(rows, i, LagIndex(rows, i).value)
  {
    LagScanSpec(rows, i, |rows|);
  }

  /** `(close - prev) / NULLIF(prev, 0) * 100`: when defined, the change
      in percent of a non-zero previous close. */
  function PercentChange(close: Option<real>, prev: Option<real>): (r: Option<real>)
    ensures r.Some? ==>
      close.Some? && prev.Some? && prev.value != 0.0
      && r.value * prev.value == (close.value - prev.value) * 100.0
  {
    Mul(Div(Sub(close, prev), NullIf(prev, 0.0)), Some(100.0))
  }

  /** The change expression is NULL exactly when a close is NULL or the
      previous close is 0, and is the percent change otherwise. */
  lemma PercentChangeSpec(close: Option<real>, prev: Option<real>)
    ensures PercentChange(close, prev).None? <==> close.None? || prev.None? || prev == Some(0.0)
    ensures PercentChange(close, prev).Some? ==>
      PercentChange(close, prev).value == (close.value - prev.value) / prev.value * 100.0
  {
  }

  /** `variacao_diaria` of staging row `i`: NULL when LAG yields NULL.
      A non-NULL change is measured against an earlier row of the same
      symbol with a non-zero close. */
  function DailyChange(rows: seq<StagingRow>, i: nat): (r: Option<real>)
    requires i < |rows|
    ensures r.Some? ==>
      rows[i].close.Some?
      && exists j | 0 <= j < |rows| ::
           Precedes(rows, j, i) && rows[j].close.Some? && rows[j].close.value != 0.0
           && r.value * rows[j].close.value == (rows[i].close.value - rows[j].close.value) * 100.0
  {
    LagIndexSpec(rows, i);
    match LagIndex(rows, i)
    case None => None
    case Some(j) => PercentChange(rows[i].close, rows[j].close)
  }

  /** The daily change, stated against the window order rather than the
      scan that computes it. */
  lemma DailyChangeSpec(rows: seq<StagingRow>, i: nat)
    requires i < |rows|
    ensures (forall k | 0 <= k < |rows| :: !Precedes(rows, k, i)) ==> DailyChange(rows, i).None?
    ensures forall j | 0 <= j < |rows| && IsLagRow(rows, i, j) ::
      (DailyChange(rows, i).None? <==> rows[i].close.None? || rows[j].close.None? || rows[j].close == Some(0.0))
      && (DailyChange(rows, i).Some? ==>
           DailyChange(rows, i).value == (rows[i].close.value - rows[j].close.value) / rows[j].close.value * 100.0)
  {
    LagIndexSpec(rows, i);
    forall j | 0 <= j < |rows| && IsLagRow(rows, i, j) ensures LagIndex(rows, i) == Some(j) {
      var l := LagIndex(rows, i).value;
      assert IsLagRow(rows, i, l);
      if l != j {
        assert SortsBefore(rows, l, j) && SortsBefore(rows, j, l);
        SortsBeforeTransitive(rows, l, j, l);
      }
    }
    if LagIndex(rows, i).Some? {
      PercentChangeSpec(rows[i].close, rows[LagIndex(rows, i).value].close);
    }
  }

  /** No symbol carries two rows for one date. */
  predicate UniqueSymbolDate(rows: seq<StagingRow>) {
    forall j, k | 0 <= j < k < |rows| :: rows[j].symbol == rows[k].symbol ==> rows[j].date != rows[k].date
  }

  /** With one row per (symbol, date), the row LAG reads for a dated row is
      the same symbol's row on the latest earlier date, and there is none
      on the symbol's earliest date. */
  lemma LagIsPreviousDate(rows: seq<StagingRow>, i: nat)
    requires i < |rows| && UniqueSymbolDate(rows) && rows[i].date.Some?
    ensures LagIndex(rows, i).None? <==>
      forall k | 0 <= k < |rows| && rows[k].symbol == rows[i].symbol && rows[k].date.Some? ::
        rows[k].date.value >= rows[i].date.value
    ensures LagIndex(rows, i).Some? ==>
      var j := LagIndex(rows, i).value;
      rows[j].symbol == rows[i].symbol && rows[j].date.Some? && rows[j].date.value < rows[i].date.value
      && forall k | 0 <= k < |rows| && rows[k].symbol == rows[i].symbol && rows[k].date.Some? ::
           !(rows[j].date.value < rows[k].date.value < rows[i].date.value)
  {
    LagIndexSpec(rows, i);
    forall k | 0 <= k < |rows| && rows[k].symbol == rows[i].symbol
      ensures Precedes(rows, k, i) <==> rows[k].date.Some? && rows[k].date.value < rows[i].date.value
    {
    }
    if LagIndex(rows, i).Some? {
      var j := LagIndex(rows, i).value;
      forall k | 0 <= k < |rows| && rows[k].symbol == rows[i].symbol && rows[k].date.Some?
        ensures !(rows[j].date.value < rows[k].date.value < rows[i].date.value)
      {
      }
    }
  }

  /** A symbol's earliest date has a NULL daily change. */
  lemma EarliestDateHasNoChange(rows: seq<StagingRow>, i: nat)
    requires i < |rows| && UniqueSymbolDate(rows) && rows[i].date.Some?
    requires forall k | 0 <= k < |rows| && rows[k].symbol == rows[i].symbol && rows[k].date.Some? ::
      rows[k].date.value >= rows[i].date.value
    ensures DailyChange(rows, i).None?
  {
    LagIsPreviousDate(rows, i);
  }

  /** The fact row built from staging row `r` and its daily change. */
  function FactOf(r: StagingRow, change: Option<real>): FactRow {
    FactRow(r.symbol, r.date, r.open, r.high, r.low, r.close, r.volume, change)
  }

  /** The `INSERT INTO fact_movimentacao_diaria ... SELECT ... FROM staging`:
      one fact row per staging row, its columns copied unchanged. */
  function BuildFacts(rows: seq<StagingRow>): (f: seq<FactRow>)
    ensures |f| == |rows|
    ensures forall i | 0 <= i < |rows| ::
      f[i].ticker == rows[i].symbol && f[i].dataId == rows[i].date
      && f[i].open == rows[i].open && f[i].high == rows[i].high && f[i].low == rows[i].low
      && f[i].close == rows[i].close && f[i].volume == rows[i].volume
      && f[i].variacaoDiaria == DailyChange(rows, i)
  {
    seq(|rows|, i requires 0 <= i < |rows| => FactOf(rows[i], DailyChange(rows, i)))
  }
}
