/** `runQueryForState` of server.js and the query of its chart path: the statement a
    conversation sends to the database, the rows kept from the answer and the SQL text
    shown. The database is not modelled; the rows it answers with are an input. */
module Query {
  import opened Wrappers
  import opened Text
  import opened Catalog
  import opened State
  import opened Where
  import opened Patterns
  import opened Display
  import MetricsConfig

  /** A statement handed to the database, with its parameters. */
  datatype Statement = Statement(sql: string, params: seq<Value>)

  /** What `runQueryForState` hands back for the state record: `raw` (None for null) and
      the SQL shown ("" for null). */
  datatype Outcome = Outcome(raw: Option<seq<Row>>, sql: string)

  const LimitClause := " LIMIT 50"

  /** The statement sent for a conversation: none without a chosen metric or without SQL;
      otherwise the template with its first `{where}` replaced by the predicate, and for a
      detail metric " LIMIT 50" appended. */
  function StatementOf(cfg: Config, st: Conv): (r: Option<Statement>)
    ensures r.Some? <==> ChosenMetric(cfg, st).Some? && ChosenMetric(cfg, st).value.sql != []
  {
    match ChosenMetric(cfg, st)
    case None => None
    case Some(m) =>
      if m.sql == [] then None
      else
        var w := WhereOf(cfg, st);
        var sql := ReplaceFirst(m.sql, WherePlaceholder, w.text);
        Some(Statement(if m.kind == Detail then sql + LimitClause else sql, w.params))
  }

  // ---------------------------------------------------------------- grouped rows

  /** JavaScript truthiness of a cell (NaN is not modelled). */
  predicate Truthy(v: Value) {
    match v
    case Str(s) => s != []
    case Num(n) => n != 0
    case Null => false
  }

  /** Row `r` holds the string `val` in column `key`. */
  predicate KeyIs(r: Row, key: string, val: string) {
    key in r && r[key] == Str(val)
  }

  /** `r.value || 0`. */
  function ValueOr0(r: Row): (v: Value)
    ensures v == Num(0) || Truthy(v)
  {
    if "value" in r && Truthy(r["value"]) then r["value"] else Num(0)
  }

  /** `existingMap.get(val) || 0` for the map built from the rows, where a later row with
      the same key overwrites an earlier one. */
  function CountOf(rows: seq<Row>, key: string, val: string): (v: Value)
    ensures v == Num(0) || Truthy(v)
  {
    if rows == [] then Num(0)
    else if KeyIs(rows[|rows| - 1], key, val) then ValueOr0(rows[|rows| - 1])
    else CountOf(rows[..|rows| - 1], key, val)
  }

  /** The row made for one requested value. */
  function Reconciled(key: string, val: string, count: Value): Row {
    map[key := Str(val)]["value" := count]
  }

  /** `filterValues.map(...)`: one row per requested value. */
  function Reconcile(rows: seq<Row>, key: string, values: seq<string>): seq<Row> {
    if values == [] then []
    else [Reconciled(key, values[0], CountOf(rows, key, values[0]))] + Reconcile(rows, key, values[1..])
  }

  /** The rows kept: reconciled only when the chosen dimension is the grouping column and
      values were chosen. */
  function GroupedRows(st: Conv, key: string, rows: seq<Row>): seq<Row> {
    if st.filterDimension == key && |st.filterValues| > 0 then Reconcile(rows, key, st.filterValues) else rows
  }

  /** `metric.groupBy || "item"`. */
  function GroupKey(m: Metric): string {
    if m.groupBy.Some? && m.groupBy.value != [] then m.groupBy.value else "item"
  }

  /** `runQueryForState` once the database has answered the statement with `rows`. */
  function RunQuery(cfg: Config, st: Conv, rows: seq<Row>): Outcome {
    match StatementOf(cfg, st)
    case None => Outcome(None, [])
    case Some(q) =>
      var m := ChosenMetric(cfg, st).value;
      var raw := if m.kind == AggregateGroup then GroupedRows(st, GroupKey(m), rows) else rows;
      Outcome(Some(raw), DisplaySql(q.sql, q.params))
  }

  /** No row carries the value: the count is 0. */
  lemma {:induction false} CountOfMissing(rows: seq<Row>, key: string, val: string)
    requires forall j :: 0 <= j < |rows| ==> !KeyIs(rows[j], key, val)
    ensures CountOf(rows, key, val) == Num(0)
    decreases |rows|
  {
    if rows != [] {
      var init := rows[..|rows| - 1];
      assert forall j :: 0 <= j < |init| ==> init[j] == rows[j];
      CountOfMissing(init, key, val);
    }
  }

  /** The last row carrying the value decides the count: its truthy `value`, or 0. */
  lemma {:induction false} CountOfLast(rows: seq<Row>, key: string, val: string, i: nat)
    requires i < |rows| && KeyIs(rows[i], key, val)
    requires forall j :: i < j < |rows| ==> !KeyIs(rows[j], key, val)
    ensures CountOf(rows, key, val) == ValueOr0(rows[i])
    decreases |rows|
  {
    if i < |rows| - 1 {
      var init := rows[..|rows| - 1];
      assert forall j :: 0 <= j < |init| ==> init[j] == rows[j];
      CountOfLast(init, key, val, i);
    }
  }

  /** Exactly one row per requested value, in the order requested, holding the value under
      the grouping column and its count (or 0) under `value`, and nothing else. */
  lemma {:induction false} ReconcileRows(rows: seq<Row>, key: string, values: seq<string>)
    ensures var r := Reconcile(rows, key, values);
            |r| == |values|
            && forall i :: 0 <= i < |values| ==>
                 r[i].Keys == {key, "value"} && r[i]["value"] == CountOf(rows, key, values[i])
                 && (key != "value" ==> r[i][key] == Str(values[i]))
  {
    if values != [] {
      ReconcileRows(rows, key, values[1..]);
      var r := Reconcile(rows, key, values);
      assert forall i :: 1 <= i < |values| ==> r[i] == Reconcile(rows, key, values[1..])[i - 1];
    }
  }

  // ---------------------------------------------------------------- outcomes

  /** Without a chosen metric or SQL nothing is returned; otherwise the rows answered are
      returned as they are, except for a grouped metric whose grouping column is the chosen
      dimension, and the SQL shown is the statement with its parameters written in. */
  lemma RunQueryOutcome(cfg: Config, st: Conv, rows: seq<Row>)
    ensures var o := RunQuery(cfg, st, rows);
            (o.raw.None? <==> StatementOf(cfg, st).None?)
            && (o.raw.None? ==> o.sql == [])
    ensures var o, q, m := RunQuery(cfg, st, rows), StatementOf(cfg, st), ChosenMetric(cfg, st);
            q.Some? ==> o.sql == DisplaySql(q.value.sql, q.value.params)
                        && ((m.value.kind != AggregateGroup || st.filterDimension != GroupKey(m.value)
                             || st.filterValues == []) ==> o.raw == Some(rows))
                        && ((m.value.kind == AggregateGroup && st.filterDimension == GroupKey(m.value)
                             && st.filterValues != []) ==> o.raw == Some(Reconcile(rows, GroupKey(m.value), st.filterValues)))
  {
  }

  /** The statement is the template with the predicate in place of its `{where}` slot,
      followed by " LIMIT 50" exactly for a detail metric; it has one `?` per parameter. */
  lemma StatementShape(cfg: Config, st: Conv)
    requires SafeColumns(cfg)
    requires ChosenMetric(cfg, st).Some?
    requires WhereSlot(ChosenMetric(cfg, st).value.sql) && '?' !in ChosenMetric(cfg, st).value.sql
    ensures var m, w, q := ChosenMetric(cfg, st).value, WhereOf(cfg, st), StatementOf(cfg, st);
            q.Some? && q.value.params == w.params
            && q.value.sql == SlotHead(m.sql) + w.text + SlotTail(m.sql) + (if m.kind == Detail then LimitClause else [])
            && CountChar(q.value.sql, '?') == |q.value.params|
  {
    var m := ChosenMetric(cfg, st).value;
    var w := WhereOf(cfg, st);
    WhereParamsMatch(cfg, st);
    SubstituteWhere(m.sql, w.text);
    SlotSplit(m.sql);
    var head, tail := SlotHead(m.sql), SlotTail(m.sql);
    assert '?' !in head && '?' !in tail;
    CountCharAbsent(head, '?');
    CountCharAbsent(tail, '?');
    CountCharAppend(head, w.text, '?');
    CountCharAppend(head + w.text, tail, '?');
    if m.kind == Detail {
      CountCharAbsent(LimitClause, '?');
      CountCharAppend(head + w.text + tail, LimitClause, '?');
    }
  }

  /** The SQL shown is the statement's pieces between marks with the parameters written
      in, in order, then tidied by `stripWhereStubForDisplay`. */
  lemma ShownStatement(cfg: Config, st: Conv, rows: seq<Row>)
    requires SafeColumns(cfg)
    requires ChosenMetric(cfg, st).Some?
    requires WhereSlot(ChosenMetric(cfg, st).value.sql) && '?' !in ChosenMetric(cfg, st).value.sql
    requires PlainParams(WhereOf(cfg, st).params)
    ensures var q := StatementOf(cfg, st).value;
            |SplitOn(q.sql, '?')| == |q.params| + 1
            && RunQuery(cfg, st, rows).sql == StripWhereStub(Filled(SplitOn(q.sql, '?'), q.params))
  {
    StatementShape(cfg, st);
    var q := StatementOf(cfg, st).value;
    FormatFillsMarks(q.sql, q.params);
  }

  // ---------------------------------------------------------------- the chart path

  const DefaultProductColumn := "st_DeptName"

  /** The column the chart groups by: the product dimension's column (or "st_DeptName"
      without one), overridden by a non-empty `dimensionMap.product`. */
  function ProductColumn(cfg: Config, m: Metric): string {
    var col := match FindDimension(cfg.filterDimensions, DimProduct)
               case Some(d) => d.column
               case None => DefaultProductColumn;
    if DimProduct in m.dimensionMap && m.dimensionMap[DimProduct] != [] then m.dimensionMap[DimProduct] else col
  }

  /** The select the chart puts in place of `SELECT COUNT(*) AS value`. */
  function ProductSelect(col: string): string {
    "SELECT " + col + " as product, COUNT(*) AS value"
  }

  /** The chart statement of an `aggregate` metric: the select rewritten, the `{where}`
      slot filled and " GROUP BY " with the product column appended. */
  function ChartStatement(cfg: Config, st: Conv, m: Metric): Statement {
    var w := WhereOf(cfg, st);
    var col := ProductColumn(cfg, m);
    var sql := ReplaceFirst(ReplacePattern(CountSelect, m.sql, ProductSelect(col)), WherePlaceholder, w.text);
    Statement(sql + " GROUP BY " + col, w.params)
  }

  /** The SQL the chart path records, if it records one: only when some row is kept or
      values were chosen. */
  function ChartSql(cfg: Config, st: Conv, m: Metric, rows: seq<Row>): Option<string> {
    var q := ChartStatement(cfg, st, m);
    if |GroupedRows(st, DimProduct, rows)| > 0 || |st.filterValues| > 0
    then Some(DisplaySql(q.sql, q.params))
    else None
  }

  /** The chart groups by the column the product filter compares. */
  lemma ProductColumnIsFilterColumn(cfg: Config, m: Metric)
    requires FindDimension(cfg.filterDimensions, DimProduct).Some?
    ensures ProductColumn(cfg, m) == FilterColumn(Some(m), FindDimension(cfg.filterDimensions, DimProduct).value)
  {
  }

  lemma ProductSelectPlain(col: string)
    requires Safe(col)
    ensures Safe(ProductSelect(col))
  {
    assert Safe("SELECT ");
    assert Safe(" as product, ");
    assert Safe("COUNT(*) AS value");
    assert " as product, COUNT(*) AS value" == " as product, " + "COUNT(*) AS value";
  }

  /** The chart rewrite on a template that starts with `SELECT COUNT(*) AS value`: that
      select, and only it, becomes the product select. */
  lemma RewriteCountSelect(sql: string, col: string)
    requires 24 <= |sql| && sql[..24] == "SELECT COUNT(*) AS value" && Safe(col)
    ensures ReplacePattern(CountSelect, sql, ProductSelect(col)) == ProductSelect(col) + sql[24..]
  {
    assert sql[0..24] == sql[..24];
    CountSelectMatch(sql, 0);
    FirstMatchIs(CountSelect, sql, 0, 0, 24);
    ProductSelectPlain(col);
    ReplaceMatch(CountSelect, sql, ProductSelect(col), 0, 24);
  }

  /** For a template `SELECT COUNT(*) AS value` + `rest` + `{where}` + `tail` (the shape of
      both `aggregate` templates), the chart statement selects the product column, keeps the
      rest of the template with the predicate in its slot, groups by the product column,
      and has one `?` per parameter. */
  lemma ChartStatementShape(cfg: Config, st: Conv, m: Metric, rest: string, tail: string)
    requires SafeColumns(cfg) && Safe(ProductColumn(cfg, m))
    requires m.sql == MetricsConfig.CountHead + rest + WherePlaceholder + tail
    requires '?' !in rest && '{' !in rest && '?' !in tail
    ensures var col, w, q := ProductColumn(cfg, m), WhereOf(cfg, st), ChartStatement(cfg, st, m);
            q.params == w.params
            && q.sql == ProductSelect(col) + rest + w.text + tail + " GROUP BY " + col
            && CountChar(q.sql, '?') == |q.params|
  {
    var w := WhereOf(cfg, st);
    WhereParamsMatch(cfg, st);
    ChartText(rest, tail, ProductColumn(cfg, m), w.text);
  }

  /** The two replacements of the chart path on a template of that shape. */
  lemma ChartText(rest: string, tail: string, col: string, where: string)
    requires '?' !in rest && '{' !in rest && '?' !in tail && Safe(col) && '$' !in where
    ensures var sql := MetricsConfig.CountHead + rest + WherePlaceholder + tail;
            ReplaceFirst(ReplacePattern(CountSelect, sql, ProductSelect(col)), WherePlaceholder, where)
              == ProductSelect(col) + rest + where + tail
            && CountChar(ProductSelect(col) + rest + where + tail + " GROUP BY " + col, '?') == CountChar(where, '?')
  {
    var sql := MetricsConfig.CountHead + rest + WherePlaceholder + tail;
    CountHeadSplit(rest + WherePlaceholder + tail);
    assert sql == MetricsConfig.CountHead + (rest + WherePlaceholder + tail);
    RewriteCountSelect(sql, col);
    ChartWhere(rest, tail, col, where);
    ProductSelectPlain(col);
    ChartCount(ProductSelect(col) + rest, where, tail, col);
  }

  lemma CountHeadSplit(rest: string)
    ensures var sql := MetricsConfig.CountHead + rest;
            24 <= |sql| && sql[..24] == "SELECT COUNT(*) AS value" && sql[24..] == rest
  {
  }

  /** The `{where}` slot after the rewritten select is filled. */
  lemma ChartWhere(rest: string, tail: string, col: string, where: string)
    requires '{' !in rest && Safe(col) && '$' !in where
    ensures ReplaceFirst(ProductSelect(col) + (rest + WherePlaceholder + tail), WherePlaceholder, where)
            == ProductSelect(col) + rest + where + tail
  {
    ProductSelectPlain(col);
    var head := ProductSelect(col) + rest;
    assert ProductSelect(col) + (rest + WherePlaceholder + tail) == head + WherePlaceholder + tail;
    ReplaceFirstUnique(head, WherePlaceholder, tail, where);
  }

  lemma ChartCount(head: string, where: string, tail: string, col: string)
    requires '?' !in head && '?' !in tail && Safe(col)
    ensures CountChar(head + where + tail + " GROUP BY " + col, '?') == CountChar(where, '?')
  {
    CountCharAbsent(head, '?');
    CountCharAbsent(tail, '?');
    CountCharAppend(head, where, '?');
    CountCharAppend(head + where, tail, '?');
    assert Safe(" GROUP BY ");
    CountCharAbsent(" GROUP BY " + col, '?');
    CountCharAppend(head + where + tail, " GROUP BY " + col, '?');
    assert head + where + tail + " GROUP BY " + col == (head + where + tail) + (" GROUP BY " + col);
  }

  // ---------------------------------------------------------------- the shipped catalog

  // No piece of a shipped template holds a `?`; one small lemma per piece.

  lemma RosterTableMarkFree()
    ensures '?' !in MetricsConfig.RosterTable
  {
  }

  lemma RosterConditionsMarkFree()
    ensures '?' !in MetricsConfig.RosterConditions
  {
    RosterConditionsSplit();
    AvailableMarkFree();
    ClassMarkFree();
  }

  lemma RosterConditionsSplit()
    ensures MetricsConfig.RosterConditions == "st_EmpAvailable='1'" + " AND st_ClassName='FE'"
  {
  }

  lemma AvailableMarkFree()
    ensures '?' !in "st_EmpAvailable='1'"
  {
  }

  lemma ClassMarkFree()
    ensures '?' !in " AND st_ClassName='FE'"
  {
  }

  lemma MachineTableMarkFree()
    ensures '?' !in MetricsConfig.MachineTable
  {
  }

  lemma MachineConditionsMarkFree()
    ensures '?' !in MetricsConfig.MachineConditions
  {
  }

  lemma CountHeadMarkFree()
    ensures '?' !in MetricsConfig.CountHead
  {
  }

  lemma GroupedHeadsMarkFree()
    ensures '?' !in MetricsConfig.ByProductHead && '?' !in MetricsConfig.ByOrgHead
  {
    assert '?' !in "SELECT " && '?' !in ",";
    assert '?' !in " COUNT(*) AS value";
    assert '?' !in MetricsConfig.DeptColumn && '?' !in MetricsConfig.OrgColumn;
  }

  lemma EngineerDetailHeadMarkFree()
    ensures '?' !in MetricsConfig.EngineerDetailHead
  {
    EngineerDetailFirstMarkFree();
    EngineerDetailSecondMarkFree();
  }

  lemma EngineerDetailFirstMarkFree()
    ensures '?' !in "SELECT st_EmpID, st_EmpNameCN,"
  {
    assert "SELECT st_EmpID, st_EmpNameCN," == "SELECT st_EmpID," + " st_EmpNameCN,";
    assert '?' !in "SELECT st_EmpID,";
    assert '?' !in " st_EmpNameCN,";
  }

  lemma EngineerDetailSecondMarkFree()
    ensures '?' !in " st_EmpNameEN, st_DeptName, st_OrgName"
  {
    assert " st_EmpNameEN, st_DeptName, st_OrgName" == " st_EmpNameEN," + " st_DeptName," + " st_OrgName";
    assert '?' !in " st_EmpNameEN,";
    assert '?' !in " st_DeptName,";
    assert '?' !in " st_OrgName";
  }

  lemma MachineDetailHeadMarkFree()
    ensures '?' !in MetricsConfig.MachineDetailHead
  {
    MachineDetailFirstMarkFree();
    MachineDetailSecondMarkFree();
  }

  lemma MachineDetailFirstMarkFree()
    ensures '?' !in "SELECT st_SN, st_ProductLine,"
  {
    assert "SELECT st_SN, st_ProductLine," == "SELECT st_SN," + " st_ProductLine,";
    assert '?' !in "SELECT st_SN,";
    assert '?' !in " st_ProductLine,";
  }

  lemma MachineDetailSecondMarkFree()
    ensures '?' !in " st_BP, st_MachineModelName"
  {
    assert " st_BP, st_MachineModelName" == " st_BP," + " st_MachineModelName";
    assert '?' !in " st_BP,";
    assert '?' !in " st_MachineModelName";
  }

  lemma OrderTailMarkFree()
    ensures '?' !in " ORDER BY st_WrMonth DESC, st_EmpID"
  {
    assert " ORDER BY st_WrMonth DESC, st_EmpID" == " ORDER BY st_WrMonth" + " DESC, st_EmpID";
    assert '?' !in " ORDER BY st_WrMonth";
    assert '?' !in " DESC, st_EmpID";
  }

  lemma GroupTailsMarkFree()
    ensures '?' !in " GROUP BY " + MetricsConfig.DeptColumn && '?' !in " GROUP BY " + MetricsConfig.OrgColumn
  {
    assert '?' !in " GROUP BY ";
    assert '?' !in MetricsConfig.DeptColumn && '?' !in MetricsConfig.OrgColumn;
  }

  /** A template head + table + `{where}` + " AND " + rest of mark-free pieces has no `?`. */
  lemma TemplateMarkFree(head: string, table: string, rest: string)
    requires '?' !in head && '?' !in table && '?' !in rest
    ensures '?' !in head + table + WherePlaceholder + (" AND " + rest)
  {
  }

  lemma RosterTemplatesMarkFree()
    ensures '?' !in MetricsConfig.EngineerCountSql && '?' !in MetricsConfig.EngineerDetailSql
    ensures '?' !in MetricsConfig.ByProductSql && '?' !in MetricsConfig.ByOrgSql
  {
    RosterTableMarkFree();
    RosterConditionsMarkFree();
    CountHeadMarkFree();
    GroupedHeadsMarkFree();
    EngineerDetailHeadMarkFree();
    OrderTailMarkFree();
    GroupTailsMarkFree();
    TemplateMarkFree(MetricsConfig.CountHead, MetricsConfig.RosterTable, MetricsConfig.RosterConditions);
    TemplateMarkFree(MetricsConfig.EngineerDetailHead, MetricsConfig.RosterTable,
                     MetricsConfig.RosterConditions + " ORDER BY st_WrMonth DESC, st_EmpID");
    TemplateMarkFree(MetricsConfig.ByProductHead, MetricsConfig.RosterTable,
                     MetricsConfig.RosterConditions + (" GROUP BY " + MetricsConfig.DeptColumn));
    TemplateMarkFree(MetricsConfig.ByOrgHead, MetricsConfig.RosterTable,
                     MetricsConfig.RosterConditions + (" GROUP BY " + MetricsConfig.OrgColumn));
  }

  lemma MachineTemplatesMarkFree()
    ensures '?' !in MetricsConfig.MachineCountSql && '?' !in MetricsConfig.MachineDetailSql
  {
    MachineTableMarkFree();
    MachineConditionsMarkFree();
    CountHeadMarkFree();
    MachineDetailHeadMarkFree();
    TemplateMarkFree(MetricsConfig.CountHead, MetricsConfig.MachineTable, MetricsConfig.MachineConditions);
    TemplateMarkFree(MetricsConfig.MachineDetailHead, MetricsConfig.MachineTable, MetricsConfig.MachineConditions);
  }

  /** No shipped template holds a `?` of its own. */
  lemma ShippedTemplatesMarkFree()
    ensures forall m :: m in MetricsConfig.AllMetrics(MetricsConfig.Shipped.categories) ==> '?' !in m.sql
  {
    MetricsConfig.ShippedMetrics();
    RosterTemplatesMarkFree();
    MachineTemplatesMarkFree();
  }

  /** The metric a conversation chose is one of the catalog's. */
  lemma ChosenInCatalog(cfg: Config, st: Conv)
    requires ChosenMetric(cfg, st).Some?
    ensures ChosenMetric(cfg, st).value in MetricsConfig.AllMetrics(cfg.categories)
  {
    var c := FindCategory(cfg.categories, st.categoryId).value;
    assert ChosenMetric(cfg, st).value in c.metrics;
  }

  /** With the shipped catalog, every chosen metric yields a statement with exactly one `?`
      per parameter, and the SQL shown has the parameters in those marks, in order. */
  lemma ShippedStatement(st: Conv, rows: seq<Row>)
    requires ChosenMetric(MetricsConfig.Shipped, st).Some?
    requires PlainParams(WhereOf(MetricsConfig.Shipped, st).params)
    ensures var q := StatementOf(MetricsConfig.Shipped, st);
            q.Some? && CountChar(q.value.sql, '?') == |q.value.params|
            && |SplitOn(q.value.sql, '?')| == |q.value.params| + 1
            && RunQuery(MetricsConfig.Shipped, st, rows).sql
               == StripWhereStub(Filled(SplitOn(q.value.sql, '?'), q.value.params))
  {
    var m := ChosenMetric(MetricsConfig.Shipped, st).value;
    ChosenInCatalog(MetricsConfig.Shipped, st);
    ShippedTemplatesMarkFree();
    MetricsConfig.SqlWhereSlots();
    assert WhereSlot(m.sql) && '?' !in m.sql;
    ShippedColumnsSafe();
    StatementShape(MetricsConfig.Shipped, st);
    ShownStatement(MetricsConfig.Shipped, st, rows);
  }

  /** No grouped metric's grouping key is NONE or the id of a declared dimension. */
  predicate GroupKeysNotDimensions(cfg: Config) {
    forall m :: m in MetricsConfig.AllMetrics(cfg.categories) && m.kind == AggregateGroup ==>
      GroupKey(m) != DimNone && FindDimension(cfg.filterDimensions, GroupKey(m)).None?
  }

  /** When grouping keys are never dimension ids, grouped rows are never reconciled while
      the chosen dimension is NONE or a declared one. */
  lemma NeverReconciles(cfg: Config, st: Conv, rows: seq<Row>)
    requires GroupKeysNotDimensions(cfg)
    requires st.filterDimension == DimNone || FindDimension(cfg.filterDimensions, st.filterDimension).Some?
    ensures RunQuery(cfg, st, rows).raw.Some? ==> RunQuery(cfg, st, rows).raw == Some(rows)
  {
    if StatementOf(cfg, st).Some? {
      ChosenInCatalog(cfg, st);
    }
  }

  /** The shipped grouped metrics group by `st_DeptName` and `st_OrgName`, which are column
      names and not dimension ids. */
  lemma ShippedGroupKeys()
    ensures GroupKeysNotDimensions(MetricsConfig.Shipped)
  {
    MetricsConfig.ShippedMetrics();
    ShippedGroupKeyValues();
    DeptColumnNotDimension();
    OrgColumnNotDimension();
  }

  lemma ShippedGroupKeyValues()
    ensures GroupKey(MetricsConfig.EngineerCountByProduct) == "st_DeptName"
    ensures GroupKey(MetricsConfig.EngineerCountByOrg) == "st_OrgName"
  {
  }

  lemma DeptColumnNotDimension()
    ensures FindDimension(MetricsConfig.Shipped.filterDimensions, "st_DeptName").None?
  {
    assert forall d :: d in MetricsConfig.Shipped.filterDimensions ==> d.id in {"product", "org", "customer"};
  }

  lemma OrgColumnNotDimension()
    ensures FindDimension(MetricsConfig.Shipped.filterDimensions, "st_OrgName").None?
  {
    assert forall d :: d in MetricsConfig.Shipped.filterDimensions ==> d.id in {"product", "org", "customer"};
  }

  /** The chart columns of the two shipped `aggregate` metrics: the product dimension's
      column for engineers, the mapped `st_ProductLine` for machines. */
  lemma ShippedProductColumns()
    ensures ProductColumn(MetricsConfig.Shipped, MetricsConfig.EngineerCount) == "st_DeptName"
    ensures ProductColumn(MetricsConfig.Shipped, MetricsConfig.MachineCount) == "st_ProductLine"
  {
  }

  /** Both shipped `aggregate` metrics have the template shape `ChartStatementShape` asks
      for, so their chart statements select and group by the product column and carry one
      `?` per parameter. */
  lemma ShippedChartTemplates()
    ensures MetricsConfig.EngineerCount.sql
            == MetricsConfig.CountHead + MetricsConfig.RosterTable + WherePlaceholder + (" AND " + MetricsConfig.RosterConditions)
    ensures MetricsConfig.MachineCount.sql
            == MetricsConfig.CountHead + MetricsConfig.MachineTable + WherePlaceholder + (" AND " + MetricsConfig.MachineConditions)
    ensures '?' !in MetricsConfig.RosterTable && '{' !in MetricsConfig.RosterTable
    ensures '?' !in MetricsConfig.MachineTable && '{' !in MetricsConfig.MachineTable
    ensures '?' !in " AND " + MetricsConfig.RosterConditions && '?' !in " AND " + MetricsConfig.MachineConditions
    ensures Safe(ProductColumn(MetricsConfig.Shipped, MetricsConfig.EngineerCount))
    ensures Safe(ProductColumn(MetricsConfig.Shipped, MetricsConfig.MachineCount))
  {
    ShippedProductColumns();
    RosterTableMarkFree();
    RosterConditionsMarkFree();
    MachineTableMarkFree();
    MachineConditionsMarkFree();
    MetricsConfig.RosterPiecesBraceFree();
    MetricsConfig.MachinePiecesBraceFree();
    DeptColumnSafe();
    ProductLineSafe();
  }

  lemma DeptColumnSafe()
    ensures Safe("st_DeptName")
  {
  }

  lemma ProductLineSafe()
    ensures Safe("st_ProductLine")
  {
  }
}
