/** The rows of the five relations of the warehouse. */
module Schema {
  import opened Sql
  import opened Calendar
  import opened Dimension

  /** A row of `staging`: the CSV columns, each of which may be NULL. */
  datatype StagingRow = StagingRow(
    date: Option<Date>,
    symbol: Option<string>,
    open: Option<real>,
    high: Option<real>,
    low: Option<real>,
    close: Option<real>,
    volume: Option<int>)

  /** The non-key columns of `dim_instrumento`. */
  datatype InstrumentAttrs = InstrumentAttrs(nomeAtivo: string, tipoAtivo: string)

  /** The non-key columns of `dim_tempo`. */
  datatype TempoAttrs = TempoAttrs(ano: int, mes: int, diaDaSemana: int)

  /** `dim_instrumento`, keyed by `ticker`. */
  type DimInstrumento = seq<Row<string, InstrumentAttrs>>

  /** `dim_tempo`, keyed by `data_id`. */
  type DimTempo = seq<Row<Date, TempoAttrs>>

  /** A row of `fact_movimentacao_diaria` (its SERIAL `id` aside). */
  datatype FactRow = FactRow(
    ticker: Option<string>,
    dataId: Option<Date>,
    open: Option<real>,
    high: Option<real>,
    low: Option<real>,
    close: Option<real>,
    volume: Option<int>,
    variacaoDiaria: Option<real>)

  /** A row of the materialized view `volatility_weekly`. */
  datatype VolRow = VolRow(ticker: Option<string>, week: Option<Date>, vol: Option<real>)
}
