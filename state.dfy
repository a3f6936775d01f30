/** The values a conversation of server.js is made of: its stages, the filter dimensions
    it names, its time range and the rows a query returns. */
module State {
  import opened Wrappers

  /** `Stage` of server.js: which slot the dialogue is asking for. */
  datatype Stage =
    | KpiCategorySelect
    | KpiMetricSelect
    | TimeTypeSelect
    | TimeValueSelect
    | FilterDimensionSelect
    | FilterValueSelect
    | SummaryConfirm
    | ExecutingQuery
    | ShowResult

  /** `FilterDimension` of server.js. */
  const DimNone := "NONE"
  const DimProduct := "product"
  const DimOrg := "org"

  /** A time range `{ type, value, label }`; `label` is `caption` here and an absent
      `value` is "". */
  datatype TimeRange = TimeRange(kind: string, value: string, caption: string)

  /** The range a recognised month stands for: type `month`, labelled by its value. */
  function MonthRange(m: string): TimeRange {
    TimeRange("month", m, m)
  }

  /** The range given to a metric that takes no time: type `none`, no value. */
  const NoTimeRange := TimeRange("none", "", "不限")

  /** A cell of a result row, or a query parameter: a string, a number or null. */
  datatype Value = Str(s: string) | Num(n: int) | Null

  /** A result row: column name to value. */
  type Row = map<string, Value>

  /** The database's answer to the one statement a transition sends, if it sends one: its
      rows, or a failure (the rejected promise the server catches). */
  datatype Answer = Answered(rows: seq<Row>) | Failed

  function RowsOf(a: Answer): seq<Row> {
    if a.Answered? then a.rows else []
  }

  /** The state record of one conversation: `createEmptyState` plus the `timeType` the
      time-type button records. Ids, `timeType`, `filterDimension` and `lastQuerySql`
      use "" for null. */
  datatype Conv = Conv(
    stage: Stage,
    categoryId: string,
    metricId: string,
    detailId: string,
    timeType: string,
    timeRange: Option<TimeRange>,
    filterDimension: string,
    filterValues: seq<string>,
    lastQueryResult: Option<seq<Row>>,
    lastQuerySql: string)

  /** `createEmptyState`. */
  const EmptyConv := Conv(KpiCategorySelect, "", "", "", "", None, DimNone, [], None, "")
}
