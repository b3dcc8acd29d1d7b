/** The data-quality gate run on `staging` by the SQL check task. */
module Quality {
  import opened Sql
  import opened Schema

  /** The row count the gate demands. */
  const EXPECTED_ROW_COUNT := 750000

  /** The `CASE WHEN close IS NULL OR date IS NULL THEN 1 ELSE 0 END` term. */
  function MissingCritical(r: StagingRow): int {
    if r.close.None? || r.date.None? then 1 else 0
  }

  /** How many rows have a NULL `close` or a NULL `date`. */
  function CountMissing(rows: seq<StagingRow>): (n: nat)
    ensures n <= |rows|
  {
    if rows == [] then 0 else MissingCritical(rows[0]) + CountMissing(rows[1..])
  }

  /** `SUM(CASE ...)`: SUM over no rows is NULL. */
  function SumMissing(rows: seq<StagingRow>): Option<int> {
    if rows == [] then None else Some(CountMissing(rows))
  }

  /** The value the gate query selects, in three-valued logic. */
  function CheckValue(rows: seq<StagingRow>): (v: Option<bool>)
    ensures v.Some?
  {
    And(Some(|rows| == EXPECTED_ROW_COUNT), Eq(SumMissing(rows), Some(0)))
  }

  /** The gate task succeeds only when the selected value is true (a NULL
      or false value fails it). */
  predicate QualityGate(rows: seq<StagingRow>): (ok: bool)
    ensures ok ==> |rows| == EXPECTED_ROW_COUNT
  {
    CheckValue(rows) == Some(true)
  }

  /** No row has a NULL close or date. */
  predicate NoMissingCritical(rows: seq<StagingRow>) {
    forall i | 0 <= i < |rows| :: rows[i].close.Some? && rows[i].date.Some?
  }

  lemma {:induction false} CountMissingZero(rows: seq<StagingRow>)
    ensures CountMissing(rows) == 0 <==> NoMissingCritical(rows)
  {
    if rows != [] {
      CountMissingZero(rows[1..]);
      if NoMissingCritical(rows[1..]) && MissingCritical(rows[0]) == 0 {
        forall i | 0 <= i < |rows| ensures rows[i].close.Some? && rows[i].date.Some? {
          if i > 0 { assert rows[i] == rows[1..][i - 1]; }
        }
      }
      if NoMissingCritical(rows) {
        assert MissingCritical(rows[0]) == 0;
        forall i | 0 <= i < |rows[1..]| ensures rows[1..][i].close.Some? && rows[1..][i].date.Some? {
          assert rows[1..][i] == rows[i + 1];
        }
      }
    }
  }

  /** The gate passes exactly when staging holds 750000 rows and none of
      them has a NULL close or a NULL date. */
  lemma QualityGateSpec(rows: seq<StagingRow>)
    ensures QualityGate(rows) <==> |rows| == EXPECTED_ROW_COUNT && NoMissingCritical(rows)
  {
    CountMissingZero(rows);
  }

  /** NULLs in symbol, open, high, low or volume never change the verdict. */
  lemma QualityGateIgnoresOtherColumns(a: seq<StagingRow>, b: seq<StagingRow>)
    requires |a| == |b|
    requires forall i | 0 <= i < |a| ::
      a[i].close.Some? == b[i].close.Some? && a[i].date.Some? == b[i].date.Some?
    ensures QualityGate(a) == QualityGate(b)
  {
    QualityGateSpec(a);
    QualityGateSpec(b);
  }
}
