# financial_volatility_pipeline in Dafny

`dags/financial_pipeline.py` is an Airflow DAG. Every day it loads a CSV of
daily quotes into a Postgres warehouse (`postgres_dw`) and builds a small
star schema from them:

- `dim_instrumento` holds one row per ticker;
- `dim_tempo` holds one row per date, with year, month and day of week;
- `fact_movimentacao_diaria` holds one row per quote, with its daily
  percent change;
- the materialized view `volatility_weekly` holds the sample standard
  deviation of those changes per ticker and ISO week;
- the last tasks pick the ticker whose average weekly volatility sorts
  first under `ORDER BY avg_volatility DESC`, push a message about it and
  log that message.

This project models those steps and the nine-task chain that runs them:

* SQL values are `Option`s, with `None` standing for NULL. NUMERIC is
  Dafny's exact `real`. Dates are day numbers counted from 1970-01-01.
* Each query is a function over the tables' rows. `Dimension` holds the
  `ON CONFLICT DO NOTHING` upsert, `Facts` the `LAG`/`NULLIF` fact build,
  `Volatility` the `GROUP BY`/`STDDEV_SAMP` view, `Reporting` the
  `AVG`/`ORDER BY`/`LIMIT 1` report and `Quality` the gate.
* `Dw.Warehouse` is a class whose fields are the relations. Its methods
  are the tasks that change them in place, each tied to a pure step
  function of `Dw`. A transactional step that violates a constraint
  rolls back and leaves every table as it was.
* `Pipeline` has three parts:
  - `Run` is the scheduler as a function: tasks go in chain order, each
    is retried up to `retries: 3` times, and the first task that fails
    stops the run.
  - `Execute` runs the same chain as a loop over the warehouse's methods
    and is proved equal to `Run`.
  - Lemmas relate a run to the queries: the gate guards everything
    downstream, a successful run's exact effect, idempotence of re-runs,
    and preservation of the key constraints.

Facts about the code that the model keeps:

- `retries: 3` sits in `default_args`, so every task, `locate_csv` and
  `run_data_quality_checks` included, makes up to four attempts before
  it fails.
- The gate compares the row count with the fixed constant 750000.
- The gate tests only `close` and `date` for NULL. A NULL symbol passes
  it and then makes `create_dim_tables` roll back on the NULL primary key
  (`Dw.CreateDimTablesRejects`).
- `load_fact_table` truncates the whole fact table before rebuilding it.
- The daily change is `(close - prev) / NULLIF(prev, 0) * 100`, in
  percent: closes 100, 110 and 99 give NULL, 10 and -10.
- The chain at line 227 is linear.
- `log_execution_summary` keeps the default trigger rule, so it runs only
  when every upstream task succeeded.
- The dimensions are keyed by `ticker` and `data_id` themselves.
- The report keeps a single row (`LIMIT 1`).
- The report query runs over every row of the view, and Postgres sorts a
  NULL average first under DESC. The message formats the chosen average
  with `:.2f`; `get_pandas_df` hands a NULL average over as `None`, and
  formatting `None` raises, so that attempt of `report_top_volatility`
  fails. `Dw.Warehouse.ReportTopVolatility` and `Pipeline.Perform` run
  the query exactly as written, with that failure. The query with
  `WHERE vol IS NOT NULL` is `Reporting.ReportTopVolatility`, stated
  beside it as the corrected half of the finding below; the DAG model
  does not use it.

## Model

| member | source | states |
|---|---|---|
| Sql.NullIf | dags/financial_pipeline.py:193 | `NULLIF(prev, 0)` is never 0, so the division the change expression performs is always defined |
| Calendar.DayOfWeek | dags/financial_pipeline.py:160 | `EXTRACT(DOW ...)` lies in 0..6, Sunday being 0 |
| Calendar.IsoWeekdayOffset | dags/financial_pipeline.py:205 | the ISO weekday counted from Monday, in 0..6, agrees with DOW shifted by one day |
| Calendar.WeekStart | dags/financial_pipeline.py:205 | `DATE_TRUNC('week', d)` is a Monday, at most six days before `d` and never after it |
| Calendar.WeekStartBlock | dags/financial_pipeline.py:209 | two dates share a truncated week exactly when the second lies in the seven days from the first's Monday |
| Calendar.Civil | dags/financial_pipeline.py:160 | the Gregorian month is in 1..12 and the day of month in 1..31 |
| Calendar.Month | dags/financial_pipeline.py:160 | `EXTRACT(MONTH ...)` is in 1..12 |
| Calendar.EpochIsThursday | dags/financial_pipeline.py:160 | day 0 is 1970-01-01, a Thursday (DOW 4) |
| Calendar.NewYear2023IsSunday | dags/financial_pipeline.py:205 | a second check of `Civil`, DOW and `DATE_TRUNC('week', ...)` on a known date: day 19358 is 2023-01-01, a Sunday, whose week starts on Monday 2022-12-26 |
| Dimension.InsertMissing | dags/financial_pipeline.py:148-150 | the upsert adds at most one row per selected key |
| Dimension.KeysAppend | dags/financial_pipeline.py:148-150 | appending a row adds exactly its key to the key set |
| Dimension.InsertMissingKeepsRows | dags/financial_pipeline.py:148-150 | `ON CONFLICT DO NOTHING` leaves every existing row, with all its columns, in place; the upsert only appends |
| Dimension.InsertMissingKeys | dags/financial_pipeline.py:148-150 | after the upsert the keys are the old keys plus every selected key |
| Dimension.InsertMissingNewRows | dags/financial_pipeline.py:159-161 | every appended row has a selected key that was absent before, and columns derived from that key |
| Dimension.InsertMissingUnique | dags/financial_pipeline.py:143-150 | the upsert keeps the PRIMARY KEY unique, even when the selection repeats a key |
| Dimension.InsertMissingNoop | dags/financial_pipeline.py:148-150 | when every selected key is already present, the table is unchanged |
| Dimension.InsertMissingIdempotent | dags/financial_pipeline.py:148-161 | running the upsert twice with the same selection leaves the table as one run does |
| Quality.CountMissing | dags/financial_pipeline.py:133 | the number of rows with a NULL close or date is at most the row count |
| Quality.CheckValue | dags/financial_pipeline.py:131-134 | the selected value is never NULL: over an empty staging, `COUNT(*) = 750000` is false, which wins over the NULL SUM |
| Quality.CountMissingZero | dags/financial_pipeline.py:133 | the SUM of the CASE term is 0 exactly when no row has a NULL close or date |
| Quality.QualityGate | dags/financial_pipeline.py:129-135 | a passing gate implies that staging holds exactly 750000 rows |
| Quality.QualityGateSpec | dags/financial_pipeline.py:129-135 | the gate passes if and only if staging has exactly 750000 rows and none has a NULL close or a NULL date |
| Quality.QualityGateIgnoresOtherColumns | dags/financial_pipeline.py:133 | two stagings of equal length whose close and date are NULL in the same rows get the same verdict, whatever their other columns |
| Facts.SortsBeforeTransitive | dags/financial_pipeline.py:192 | the window order (date ascending, NULLs last, ties in staging order) is transitive |
| Facts.LagScan | dags/financial_pipeline.py:192 | the candidate LAG row lies in the scanned prefix |
| Facts.LagIndex | dags/financial_pipeline.py:192 | the LAG row, when there is one, is a staging row |
| Facts.LagScanSpec | dags/financial_pipeline.py:192 | the scan finds nothing exactly when no scanned row precedes row i in its partition; otherwise it finds the last such row |
| Facts.LagIndexSpec | dags/financial_pipeline.py:192 | LAG is NULL exactly when row i has no predecessor in its symbol's partition; otherwise it reads the partition's last row before i |
| Facts.PercentChange | dags/financial_pipeline.py:192-193 | a non-NULL change has both closes and a non-zero previous close, and the change times the previous close is 100 times the price move |
| Facts.PercentChangeSpec | dags/financial_pipeline.py:192-193 | the change is NULL exactly when either close is NULL or the previous close is 0; otherwise it is `(close - prev) / prev * 100` |
| Facts.DailyChange | dags/financial_pipeline.py:192-193 | a non-NULL daily change is measured against an earlier row of the same symbol with a non-zero close, by the percent equation |
| Facts.DailyChangeSpec | dags/financial_pipeline.py:192-193 | the daily change is NULL without a predecessor; otherwise it is NULL or the percent change exactly as the LAG row's close dictates |
| Facts.LagIsPreviousDate | dags/financial_pipeline.py:192 | with one row per (symbol, date), LAG reads the same symbol's latest earlier date, and nothing on its earliest date |
| Facts.EarliestDateHasNoChange | dags/financial_pipeline.py:192-193 | a symbol's earliest date has a NULL `variacao_diaria` |
| Facts.BuildFacts | dags/financial_pipeline.py:184-194 | one fact row per staging row, with ticker, date, open, high, low, close and volume copied unchanged and the change from LAG |
| Stats.SquareNonNegative | dags/financial_pipeline.py:206 | a squared deviation is non-negative |
| Stats.SumSqDev | dags/financial_pipeline.py:206 | the sum of squared deviations is non-negative |
| Stats.SampleVariance | dags/financial_pipeline.py:206 | the sample variance `Σ(x - mean)² / (n - 1)` of two or more values is non-negative |
| Stats.SumSqDevOfConstant | dags/financial_pipeline.py:206 | values all equal to m have no deviation from m |
| Stats.SumOfConstant | dags/financial_pipeline.py:206 | n values all equal to m sum to n·m, so their mean is m |
| Stats.VarianceOfConstant | dags/financial_pipeline.py:206 | a group of equal changes has variance 0: a flat week has volatility 0 |
| Volatility.StddevSamp | dags/financial_pipeline.py:206 | `STDDEV_SAMP` is NULL exactly for fewer than two values; with a true square root it is non-negative and squares to the sample variance |
| Volatility.WeeklyVolatility | dags/financial_pipeline.py:203-209 | every row of the view is the (ticker, week) group of some fact row with a non-NULL change |
| Volatility.ObservedFacts | dags/financial_pipeline.py:208 | `WHERE variacao_diaria IS NOT NULL` keeps only rows with a change |
| Volatility.GroupsSpec | dags/financial_pipeline.py:209 | the GROUP BY forms each (ticker, week) group once, exactly the groups of rows with a non-NULL change |
| Volatility.GroupValuesNonEmpty | dags/financial_pipeline.py:208-209 | a group has values exactly when some row with a non-NULL change falls in it |
| Volatility.WeeklyVolatilityGroups | dags/financial_pipeline.py:203-209 | the view has one row per (ticker, week) group holding at least one non-NULL change, and no group twice |
| Volatility.WeeklyVolatilityValue | dags/financial_pipeline.py:206 | each group has at least one value; vol is NULL exactly when it has one; with two or more, vol is the root of their non-negative sample variance, and with a true square root it is non-negative and squares to that variance |
| Volatility.ObservedFactsSameGroups | dags/financial_pipeline.py:208 | removing the rows with a NULL change leaves the groups and each group's values unchanged |
| Volatility.WeeklyVolatilityIgnoresNulls | dags/financial_pipeline.py:208 | rows with a NULL change never contribute: the view is the same without them |
| Reporting.AvgVol | dags/financial_pipeline.py:61 | `AVG(vol)` of a ticker is non-NULL exactly when the ticker has a non-NULL vol |
| Reporting.TopIndex | dags/financial_pipeline.py:64-65 | `ORDER BY ... DESC LIMIT 1` keeps a position that ranks at or above every other, NULLs ranking first |
| Reporting.MeasuredRows | dags/financial_pipeline.py:60-65 | the filtered view keeps only rows with a non-NULL vol |
| Reporting.TickersSpec | dags/financial_pipeline.py:63 | `GROUP BY ticker` yields each ticker of the view once, and no group for an empty view |
| Reporting.TickerVolsNonEmpty | dags/financial_pipeline.py:61 | a ticker has averaged values exactly when one of its weeks has a non-NULL vol |
| Reporting.MeasuredRowsSpec | dags/financial_pipeline.py:60-65 | filtering out NULL vols keeps every ticker's averaged values and exactly the measured tickers |
| Reporting.ReportAsWritten | dags/financial_pipeline.py:60-65 | the query exactly as written; a row it returns is a ticker of the view with that ticker's `AVG(vol)` |
| Reporting.ReportAsWrittenSpec | dags/financial_pipeline.py:60-75 | as written, no row exactly when the view is empty; the row's average can be formatted exactly when every ticker has a measured week, and it is then the largest of all tickers' averages |
| Reporting.ReportTopVolatility | dags/financial_pipeline.py:60-65 | the corrected query, with `WHERE vol IS NOT NULL`, always returns an average that can be formatted |
| Reporting.MeasuredRowsRender | dags/financial_pipeline.py:60-75 | over a view whose vols are all non-NULL, the query's average can always be formatted |
| Reporting.Message | dags/financial_pipeline.py:68-75 | the no-data text is pushed exactly when the query returned no row |
| Reporting.ReportAsWrittenEmpty | dags/financial_pipeline.py:68-69 | as written, the query returns no row exactly when the view is empty |
| Reporting.ReportAsWrittenPrefersNull | dags/financial_pipeline.py:64 | as written, a ticker whose every vol is NULL makes the query return a ticker with a NULL average, which `:.2f` cannot format |
| Reporting.ReportAsWrittenCounterexample | dags/financial_pipeline.py:60-65 | on a two-row view the query as written reports the unmeasured ticker, while the intended report gives the measured one |
| Reporting.NoMeasuredTickers | dags/financial_pipeline.py:68-69 | no ticker is measured exactly when every vol of the view is NULL |
| Reporting.ReportTopVolatilitySpec | dags/financial_pipeline.py:58-76 | the corrected query gives no data exactly when every vol is NULL (an empty view included); otherwise a ticker of the view whose non-NULL average is the largest of all tickers' averages |
| Reporting.ReportTopIsMaximal | dags/financial_pipeline.py:60-65 | when some vol is measured, the corrected query names a ticker whose average is at least every ticker's average |
| Reporting.ReportMessage | dags/financial_pipeline.py:68-76 | the corrected query's average is never NULL, so its message can be formatted; with no measured week it is the no-data message |
| Dw.TempoOf | dags/financial_pipeline.py:160 | a new `dim_tempo` row has `mes` in 1..12 and `dia_da_semana` in 0..6 |
| Dw.Symbols | dags/financial_pipeline.py:149 | the selected tickers are NULL-free exactly when no staging symbol is NULL, and then they are the staging symbols |
| Dw.Dates | dags/financial_pipeline.py:160 | the selected dates are NULL-free exactly when no staging date is NULL, and then they are the staging dates |
| Dw.SymbolKeys | dags/financial_pipeline.py:149 | the selected tickers are exactly the distinct staging symbols |
| Dw.DateKeys | dags/financial_pipeline.py:160 | the selected dates are exactly the distinct staging dates |
| Dw.CreateDimTablesStep | dags/financial_pipeline.py:141-161 | the dimension transaction writes only the two dimensions, and is rolled back only for a NOT NULL violation |
| Dw.LoadFactTableStep | dags/financial_pipeline.py:170-194 | a committed fact transaction writes only the fact table and leaves it meeting its foreign keys; a rollback is a foreign key violation |
| Dw.RefreshStep | dags/financial_pipeline.py:212 | REFRESH writes only the view, so the key constraints keep holding |
| Dw.CreateDimTablesRejects | dags/financial_pipeline.py:141-161 | the dimension transaction rolls back exactly when staging has a NULL symbol or a NULL date |
| Dw.CreateDimTablesSpec | dags/financial_pipeline.py:141-161 | after the dimension step, the staging symbols and dates are keys; existing rows are unchanged; new rows get `'Ativo ' \|\| symbol`, `'Acao'` and the date's year, month and DOW; keys stay unique; nothing else changes |
| Dw.CreateDimTablesIdempotent | dags/financial_pipeline.py:148-161 | re-running the dimension step on its own result changes nothing |
| Dw.LoadFactTableSpec | dags/financial_pipeline.py:170-194 | the fact step rolls back exactly when a staging key is missing from its dimension; otherwise the fact table is exactly the rows built from staging, the old rows gone, and nothing else changes |
| Dw.DimensionsCoverStaging | dags/financial_pipeline.py:172-173 | once the dimension step commits, the fact step's foreign keys always hold |
| Dw.Warehouse.LoadStaging | dags/financial_pipeline.py:42-49 | after TRUNCATE and COPY, staging is exactly the input rows, and no other relation changes |
| Dw.Warehouse.RunDataQualityChecks | dags/financial_pipeline.py:126-136 | the gate's verdict is true exactly when staging has 750000 rows without a NULL close or date; nothing is written |
| Dw.Warehouse.CreateDimTables | dags/financial_pipeline.py:138-163 | the warehouse becomes the dimension step's result, or stays as it was with the NOT NULL error |
| Dw.Warehouse.LoadFactTable | dags/financial_pipeline.py:165-196 | the warehouse becomes the fact step's result, or stays as it was with the foreign key error |
| Dw.Warehouse.CalculateVolatilityView | dags/financial_pipeline.py:198-214 | REFRESH replaces the view with the volatility computed from the current facts, and nothing else changes |
| Dw.Warehouse.ReportTopVolatility | dags/financial_pipeline.py:52-78 | the query as written: no row exactly when the view is empty; the row names a ticker of the view with its average; that average can be formatted exactly when every ticker has a measured week, and is then the largest |
| Pipeline.Attempt | dags/financial_pipeline.py:13-17 | a started task ends having run, with 1 to 4 attempts, and with all 4 when it failed |
| Pipeline.Perform | dags/financial_pipeline.py:99-224 | a task attempt that fails commits nothing; only the report task pushes a report; only `load_staging`, `create_dim_tables`, `load_fact_table` and `calculate_volatility_view` write tables |
| Pipeline.Pad | dags/financial_pipeline.py:227 | after the last task that ran, every later task of the chain is UpstreamFailed |
| Pipeline.FirstFailureSpec | dags/financial_pipeline.py:227 | every task before the first failure succeeds, and the first failure does not |
| Pipeline.RunFromStates | dags/financial_pipeline.py:227 | the tasks up to the first failure end in their attempted states, and the tasks after it never run |
| Pipeline.RunFromStage | dags/financial_pipeline.py:227 | the run leaves the tables and report committed by the tasks before the first failure |
| Pipeline.ChainSpec | dags/financial_pipeline.py:227 | a run stops at its first failing task, with the warehouse as the tasks before it left it |
| Pipeline.ChainIsLinear | dags/financial_pipeline.py:13-17 | whatever the tasks do, a task runs iff all its upstream tasks succeeded, and a task makes 1 to 4 attempts, a failed one all 4 |
| Pipeline.RunSpec | dags/financial_pipeline.py:227 | the DAG's run stops at its first failing task, and its warehouse and report are those committed before that task |
| Pipeline.Run | dags/financial_pipeline.py:227 | in a run of the DAG a task runs iff all its upstream tasks succeeded, with at most `retries` = 3 retries each, and a failed task used them all |
| Pipeline.StageStep | dags/financial_pipeline.py:227 | each stage of the chain is what its task commits on the stage before it |
| Pipeline.EarlyStages | dags/financial_pipeline.py:99-136 | the first four tasks write only staging, which then holds the input, and push no report |
| Pipeline.QualityGateGuardsDownstream | dags/financial_pipeline.py:126-136 | a failed gate leaves the dimensions, facts and view unchanged, with no report; dimension success implies 750000 input rows without a NULL close or date |
| Pipeline.FactStepSucceeds | dags/financial_pipeline.py:172-173 | once the file is found and the dimensions commit, the fact load succeeds unless its retries run out |
| Pipeline.FactLoadFollowsDimensions | dags/financial_pipeline.py:165-173 | after `create_dim_tables` succeeds, `load_fact_table` fails only through transient failures |
| Pipeline.CompletedStages | dags/financial_pipeline.py:141-219 | with the file found and both transactions committed, the view is refreshed over the rebuilt facts, and the final stage pushes the written query's row on it when that row's average can be formatted, and no report otherwise |
| Pipeline.DimensionStageReached | dags/financial_pipeline.py:141-161 | after the dimension task, staging holds the input and the dimensions are that step's result |
| Pipeline.LateStages | dags/financial_pipeline.py:182-219 | after the fact task the view is refreshed from the rebuilt facts, and the written query's row is pushed when its average can be formatted, with no report otherwise |
| Pipeline.FactStage | dags/financial_pipeline.py:182-194 | the fact task's stage is the fact step's result |
| Pipeline.ViewStage | dags/financial_pipeline.py:212 | the view task's stage is the refreshed view |
| Pipeline.ReportStage | dags/financial_pipeline.py:216-224 | the report task pushes the written query's row on the view when its average can be formatted and commits nothing otherwise; the summary changes nothing |
| Pipeline.ReportTaskOutcome | dags/financial_pipeline.py:52-78 | the report task succeeds exactly when its retries are not exhausted by passing failures and the written query's average can be formatted |
| Pipeline.ReportTail | dags/financial_pipeline.py:216-227 | once the view task succeeds, the run ends with that stage's tables, and a failed report task leaves the summary UpstreamFailed and the report as it was |
| Pipeline.NoReportBefore | dags/financial_pipeline.py:227 | no report is pushed before the report task |
| Pipeline.RunEffect | dags/financial_pipeline.py:38-219 | a fully successful run leaves staging equal to the input, the dimensions upserted, the facts rebuilt from the input alone, the view recomputed, and the written query's row on that view pushed, its average formattable |
| Pipeline.RunReport | dags/financial_pipeline.py:52-78 | a successful run's report is no row exactly when its view is empty, and otherwise a ticker of the view whose non-NULL average is the largest, every ticker having a measured week |
| Pipeline.UnmeasuredTickerFailsReport | dags/financial_pipeline.py:60-75 | when the view holds a ticker with only NULL vols, the report task fails after all 4 attempts, the summary never runs, and no report is pushed |
| Pipeline.RunIdempotent | dags/financial_pipeline.py:141-194 | re-running the DAG on the same input after a successful run leaves the warehouse and the report unchanged |
| Pipeline.StagesKeepConstraints | dags/financial_pipeline.py:144-173 | every stage of a run keeps the primary and foreign keys |
| Pipeline.RunPreservesConstraints | dags/financial_pipeline.py:144-173 | a run, successful or not, keeps the warehouse's primary and foreign key constraints |
| Pipeline.Work | dags/financial_pipeline.py:99-224 | one attempt through the warehouse's methods does exactly what `Perform` says |
| Pipeline.Execute | dags/financial_pipeline.py:227 | executing the chain on the warehouse gives the same tables, task states and report as `Run` |

## Left out

- Airflow itself is not modelled: the `DAG` object, the operators, XCom,
  the `'0 7 * * *'` schedule, `catchup` and the 5-minute `retry_delay`.
  Which attempts fail for a passing reason (lost connection, lock
  timeout) is a parameter, `transient`, and only the attempt count is
  kept.
- File and database I/O are abstracted:
  - `os.path.exists` becomes an `Option` of rows, `None` when the file is
    absent.
  - `COPY ... CSV HEADER` parsing is replaced by those rows.
  - `PostgresHook` and `get_pandas_df` are left out.
- DDL is left out. Every `CREATE TABLE IF NOT EXISTS` and the
  `CREATE MATERIALIZED VIEW IF NOT EXISTS` are treated as having already
  run, so `setup_staging_table` changes nothing.
- Dw.Warehouse.LoadFactTable: the `id SERIAL` column is not modelled.
  TRUNCATE without RESTART IDENTITY keeps the sequence going, so ids grow
  across runs; fact rows are compared without their id.
- Volatility.WeeklyVolatilityValue: `vol` is stated through a
  square-root parameter, not through a real square root. That vol is
  the non-negative root of the variance is proved only for parameters
  meeting `Volatility.IsSquareRoot`; no such function is defined here.
- Reporting.Message: the `:.2f` rendering of the average is a parameter.
  Only the no-data message is stated character by character.
- Sql.Div: NUMERIC division is modelled as exact real division. The
  rounding of Postgres' NUMERIC division to a limited number of
  decimal places is left out.
- Facts.LagIndexSpec: SQL leaves open the order of rows of one symbol
  that share a date. The model breaks ties by staging position, which
  is one of the orders Postgres may use. `Facts.LagIsPreviousDate` is
  stated only for stagings with one row per (symbol, date).
- Reporting.ReportAsWrittenSpec: among tickers tied for the largest
  average, which one `LIMIT 1` returns is unspecified. The contract
  states only that the reported ticker is maximal.
- Reporting.ReportTopVolatilitySpec: ties are left open in the same way.
- `VARCHAR(10)`/`VARCHAR(50)` lengths and `BIGINT` bounds are not
  modelled: an over-long symbol or an out-of-range volume would fail the
  COPY, and the input rows are taken as already loaded.
- Calendar.Civil: year and month of dates before year 1 follow the
  proleptic Gregorian calendar with a year 0, unlike Postgres' BC
  dates.
- The order of rows inside a relation is a modelling choice: the
  dimensions append new keys in first-occurrence order, and the view
  lists groups in one fixed order. SQL leaves both open; no contract
  depends on them except through the sequence itself.
- Logging in `_log_execution_summary` is not modelled; the task changes
  nothing.
- Concurrent runs are not modelled, because the scheduler runs the DAG
  one run at a time.

## Findings

| source | as written | input that shows it | evidently intended | confidence | as-written member | corrected member |
|---|---|---|---|---|---|---|
| dags/financial_pipeline.py:60-75 | `ORDER BY avg_volatility DESC LIMIT 1` over all rows of `volatility_weekly`. A ticker whose weeks each hold a single daily change has only NULL vols, so its `AVG(vol)` is NULL, and Postgres sorts NULLs first under DESC. `:.2f` then raises on the `None` average, so `report_top_volatility` fails all 4 attempts and `log_execution_summary` never runs (`Pipeline.UnmeasuredTickerFailsReport`) | the view [(AAA, 2022-12-26, 5.0), (BBB, 2022-12-26, NULL)]: the query names BBB, whose average is NULL | the ticker with the largest measured average (AAA, 5.0), as with `WHERE vol IS NOT NULL` or `NULLS LAST` | medium, not executed | Reporting.ReportAsWrittenCounterexample | Reporting.ReportTopVolatilitySpec |
