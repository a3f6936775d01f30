/** `buildWhere` of server.js: the WHERE predicate of a query and its parameter list,
    built from the time range and the filter of a conversation. */
module Where {
  import opened Wrappers
  import opened Text
  import opened Catalog
  import opened State
  import MetricsConfig

  /** The stub every predicate starts from. */
  const WhereStub := "WHERE 1=1"

  const Mark := "?"
  const MonthHead := " AND st_WrMonth = "
  const SubstrHead := " AND substr("
  const YearHead := SubstrHead + "st_WrMonth, 1, 4) = "
  const CastHead := " AND CAST(substr("
  const CastTail := "st_WrMonth, 5, 2) AS INTEGER)"
  const Between := " BETWEEN "
  const HalfMiddle := CastHead + CastTail + Between

  const MonthPredicate := MonthHead + Mark
  const YearPredicate := YearHead + Mark
  const HalfPredicate := YearPredicate + HalfMiddle + Mark + " AND " + Mark

  /** A piece of predicate text with the parameters its `?` marks stand for. */
  datatype Clause = Clause(text: string, params: seq<Value>)

  /** `v.slice(0, 4)`. */
  function Year(v: string): string {
    if |v| <= 4 then v else v[..4]
  }

  /** `v.slice(4)`. */
  function HalfSuffix(v: string): string {
    if |v| <= 4 then [] else v[4..]
  }

  /** The month bounds of a half year: H1 is 1-6, H2 is 7-12, anything else the whole
      year. */
  function HalfBounds(half: string): (int, int) {
    if half == "H1" then (1, 6) else if half == "H2" then (7, 12) else (1, 12)
  }

  /** The time part of the predicate: nothing without a range, for type `none` or without
      a value; otherwise one comparison per type, and for an unknown type the month
      comparison unless the value is "any". */
  function TimeClause(tr: Option<TimeRange>): Clause {
    match tr
    case None => Clause([], [])
    case Some(t) =>
      if t.kind == "none" || t.value == [] then Clause([], [])
      else if t.kind == "month" then Clause(MonthPredicate, [Str(t.value)])
      else if t.kind == "half_fy" then
        var (lo, hi) := HalfBounds(HalfSuffix(t.value));
        Clause(HalfPredicate, [Str(Year(t.value)), Num(lo), Num(hi)])
      else if t.kind == "fy" then Clause(YearPredicate, [Str(Year(t.value))])
      else if t.value != "any" then Clause(MonthPredicate, [Str(t.value)])
      else Clause([], [])
  }

  /** `values.map(() => "?").join(",")`. */
  function Placeholders(n: nat): string
    requires n >= 1
  {
    JoinWith(seq(n, _ => "?"), ',')
  }

  /** The values as string parameters, in order. */
  function Strs(vs: seq<string>): (r: seq<Value>)
    ensures |r| == |vs| && forall i :: 0 <= i < |vs| ==> r[i] == Str(vs[i])
  {
    seq(|vs|, i requires 0 <= i < |vs| => Str(vs[i]))
  }

  /** The column a filter dimension is matched on: the metric's `dimensionMap` entry when
      it has a non-empty one, else the dimension's own column. */
  function FilterColumn(metric: Option<Metric>, d: FilterDimension): string {
    if metric.Some? && d.id in metric.value.dimensionMap && metric.value.dimensionMap[d.id] != []
    then metric.value.dimensionMap[d.id]
    else d.column
  }

  /** The metric a conversation has chosen, looked up by category and metric id. */
  function ChosenMetric(cfg: Config, st: Conv): Option<Metric> {
    FindMetric(cfg, st.categoryId, st.metricId)
  }

  /** The filter part: an `IN` list with one `?` per value, only for a chosen, declared
      dimension other than NONE with at least one value. */
  function FilterClause(dims: seq<FilterDimension>, metric: Option<Metric>, dimension: string,
                        values: seq<string>): Clause
  {
    if dimension == [] || dimension == DimNone || |values| == 0 then Clause([], [])
    else match FindDimension(dims, dimension)
      case None => Clause([], [])
      case Some(d) =>
        Clause(" AND " + FilterColumn(metric, d) + " IN (" + Placeholders(|values|) + ")", Strs(values))
  }

  /** The filter part for a conversation's chosen metric, dimension and values. */
  function FilterOf(cfg: Config, st: Conv): Clause {
    FilterClause(cfg.filterDimensions, ChosenMetric(cfg, st), st.filterDimension, st.filterValues)
  }

  /** The whole predicate of `buildWhere`. */
  function WhereOf(cfg: Config, st: Conv): Clause {
    var t := TimeClause(st.timeRange);
    var f := FilterOf(cfg, st);
    Clause(WhereStub + t.text + f.text, t.params + f.params)
  }

  /** `buildWhere`: appends the time predicate, then the filter predicate, pushing the
      parameters as it goes. */
  method BuildWhere(cfg: Config, st: Conv) returns (where: string, params: seq<Value>)
    ensures Clause(where, params) == WhereOf(cfg, st)
  {
    params := [];
    where := WhereStub;
    var metric := ChosenMetric(cfg, st);
    where, params := AppendTimePredicate(where, params, st.timeRange);
    where, params := AppendFilterPredicate(cfg.filterDimensions, metric, st.filterDimension, st.filterValues, where, params);
  }

  /** The time branch of `buildWhere`. */
  method AppendTimePredicate(where0: string, params0: seq<Value>, timeRange: Option<TimeRange>)
    returns (where: string, params: seq<Value>)
    ensures where == where0 + TimeClause(timeRange).text
    ensures params == params0 + TimeClause(timeRange).params
  {
    where, params := where0, params0;
    if timeRange.Some? && timeRange.value.kind != "none" && timeRange.value.value != [] {
      var tr := timeRange.value;
      if tr.kind == "month" {
        where := where + MonthPredicate;
        params := params + [Str(tr.value)];
      } else if tr.kind == "half_fy" {
        var year := Year(tr.value);
        var half := HalfSuffix(tr.value);
        var minMonth, maxMonth := 1, 12;
        if half == "H1" {
          minMonth, maxMonth := 1, 6;
        } else if half == "H2" {
          minMonth, maxMonth := 7, 12;
        }
        where := where + HalfPredicate;
        params := params + [Str(year), Num(minMonth), Num(maxMonth)];
      } else if tr.kind == "fy" {
        where := where + YearPredicate;
        params := params + [Str(Year(tr.value))];
      } else if tr.value != "any" {
        where := where + MonthPredicate;
        params := params + [Str(tr.value)];
      }
    }
  }

  /** The filter branch of `buildWhere`: the `IN` list, then one push per value. */
  method AppendFilterPredicate(dims: seq<FilterDimension>, metric: Option<Metric>, dimension: string,
                               values: seq<string>, where0: string, params0: seq<Value>)
    returns (where: string, params: seq<Value>)
    ensures where == where0 + FilterClause(dims, metric, dimension, values).text
    ensures params == params0 + FilterClause(dims, metric, dimension, values).params
  {
    where, params := where0, params0;
    if dimension != [] && dimension != DimNone && |values| > 0 {
      var dim := FindDimension(dims, dimension);
      if dim.Some? {
        var column := dim.value.column;
        if metric.Some? && dim.value.id in metric.value.dimensionMap && metric.value.dimensionMap[dim.value.id] != [] {
          column := metric.value.dimensionMap[dim.value.id];
        }
        var placeholders := Placeholders(|values|);
        where := where + " AND " + column + " IN (" + placeholders + ")";
        var i := 0;
        while i < |values|
          invariant 0 <= i <= |values|
          invariant params == params0 + Strs(values[..i])
        {
          params := params + [Str(values[i])];
          i := i + 1;
        }
        assert values[..i] == values;
      }
    }
  }

  // ---------------------------------------------------------------- properties

  /** Text that a predicate or a template may hold without upsetting the placeholders,
      the replacement patterns or the `{where}` slot. */
  predicate Safe(s: string) {
    '?' !in s && '$' !in s && '{' !in s
  }

  /** Every column a filter can name is safe: the dimensions' own columns and the metrics'
      `dimensionMap` entries. */
  predicate SafeColumns(cfg: Config) {
    (forall i :: 0 <= i < |cfg.filterDimensions| ==> Safe(cfg.filterDimensions[i].column))
    && forall c, m, k :: c in cfg.categories && m in c.metrics && k in m.dimensionMap ==> Safe(m.dimensionMap[k])
  }

  lemma {:induction false} PlaceholderCount(n: nat)
    requires n >= 1
    ensures CountChar(Placeholders(n), '?') == n && '$' !in Placeholders(n) && '{' !in Placeholders(n)
  {
    var parts := seq(n, _ => "?");
    if n > 1 {
      PlaceholderCount(n - 1);
      assert parts[1..] == seq(n - 1, _ => "?");
      assert Placeholders(n) == "?" + [','] + Placeholders(n - 1);
    }
  }

  // No fixed piece of the time predicates holds a `?`, a `$` or a `{`.

  lemma MonthHeadSafe()
    ensures Safe(MonthHead)
  {
  }

  lemma YearHeadSafe()
    ensures Safe(YearHead)
  {
    assert Safe(SubstrHead);
    assert Safe("st_WrMonth, 1, 4) = ");
  }

  lemma CastHeadSafe()
    ensures Safe(CastHead)
  {
  }

  lemma CastTailSafe()
    ensures Safe(CastTail)
  {
  }

  lemma HalfMiddleSafe()
    ensures Safe(HalfMiddle)
  {
    CastHeadSafe();
    CastTailSafe();
    assert Safe(Between);
  }

  /** Counting `?` in a text of safe pieces and marks. */
  lemma CountSafe(a: string, b: string, n: nat)
    requires Safe(a) && CountChar(b, '?') == n && '$' !in b && '{' !in b
    ensures CountChar(a + b, '?') == n && '$' !in a + b && '{' !in a + b
  {
    CountCharAbsent(a, '?');
    CountCharAppend(a, b, '?');
  }

  lemma MarkCount(a: string, n: nat)
    requires CountChar(a, '?') == n && '$' !in a && '{' !in a
    ensures CountChar(a + Mark, '?') == n + 1 && '$' !in a + Mark && '{' !in a + Mark
  {
    CountCharAppend(a, Mark, '?');
  }

  lemma MonthPredicateCount()
    ensures CountChar(MonthPredicate, '?') == 1 && '$' !in MonthPredicate && '{' !in MonthPredicate
  {
    MonthHeadSafe();
    CountCharAbsent(MonthHead, '?');
    MarkCount(MonthHead, 0);
  }

  lemma YearPredicateCount()
    ensures CountChar(YearPredicate, '?') == 1 && '$' !in YearPredicate && '{' !in YearPredicate
  {
    YearHeadSafe();
    CountCharAbsent(YearHead, '?');
    MarkCount(YearHead, 0);
  }

  lemma HalfPredicateCount()
    ensures CountChar(HalfPredicate, '?') == 3 && '$' !in HalfPredicate && '{' !in HalfPredicate
  {
    HalfMiddleSafe();
    YearPredicateCount();
    CountCharAbsent(HalfMiddle, '?');
    CountCharAppend(YearPredicate, HalfMiddle, '?');
    MarkCount(YearPredicate + HalfMiddle, 1);
    CountCharAppend(YearPredicate + HalfMiddle + Mark, " AND ", '?');
    CountCharAbsent(" AND ", '?');
    MarkCount(YearPredicate + HalfMiddle + Mark + " AND ", 2);
  }

  lemma TimeClauseCount(tr: Option<TimeRange>)
    ensures CountChar(TimeClause(tr).text, '?') == |TimeClause(tr).params|
    ensures '$' !in TimeClause(tr).text && '{' !in TimeClause(tr).text
  {
    MonthPredicateCount();
    YearPredicateCount();
    HalfPredicateCount();
  }

  lemma FilterClauseCount(dims: seq<FilterDimension>, metric: Option<Metric>, dimension: string,
                          values: seq<string>)
    requires forall i :: 0 <= i < |dims| ==> Safe(dims[i].column)
    requires metric.Some? ==> forall k :: k in metric.value.dimensionMap ==> Safe(metric.value.dimensionMap[k])
    ensures var f := FilterClause(dims, metric, dimension, values);
            CountChar(f.text, '?') == |f.params| && '$' !in f.text && '{' !in f.text
  {
    if dimension != [] && dimension != DimNone && |values| > 0 {
      match FindDimension(dims, dimension)
      case None =>
      case Some(d) =>
        var col := FilterColumn(metric, d);
        assert Safe(col) by {
          var k :| 0 <= k < |dims| && dims[k] == d;
        }
        var ph := Placeholders(|values|);
        PlaceholderCount(|values|);
        assert Safe(" AND ") && Safe(" IN (") && Safe(")");
        CountSafe(" AND ", col, 0) by {
          CountCharAbsent(col, '?');
        }
        CountCharAppend(" AND " + col, " IN (", '?');
        CountCharAbsent(" IN (", '?');
        CountCharAppend(" AND " + col + " IN (", ph, '?');
        CountCharAppend(" AND " + col + " IN (" + ph, ")", '?');
        CountCharAbsent(")", '?');
    }
  }

  lemma StubSafe()
    ensures Safe(WhereStub)
  {
  }

  /** Counting `?` across a safe head and two counted pieces. */
  lemma CountThree(a: string, b: string, c: string)
    requires Safe(a) && '$' !in b && '{' !in b && '$' !in c && '{' !in c
    ensures CountChar(a + b + c, '?') == CountChar(b, '?') + CountChar(c, '?')
    ensures '$' !in a + b + c && '{' !in a + b + c
  {
    CountCharAbsent(a, '?');
    CountCharAppend(a, b, '?');
    CountCharAppend(a + b, c, '?');
  }

  lemma ChosenMetricSafe(cfg: Config, st: Conv)
    requires SafeColumns(cfg)
    ensures var metric := ChosenMetric(cfg, st);
            metric.Some? ==> forall k :: k in metric.value.dimensionMap ==> Safe(metric.value.dimensionMap[k])
  {
    var metric := ChosenMetric(cfg, st);
    if metric.Some? {
      var cat := FindCategory(cfg.categories, st.categoryId).value;
      assert metric.value in cat.metrics;
    }
  }

  /** `buildWhere` keeps `params.length` equal to the number of `?` in `where`, and, over
      safe columns, writes no `$` and no `{`. */
  lemma {:induction false} WhereParamsMatch(cfg: Config, st: Conv)
    requires SafeColumns(cfg)
    ensures CountChar(WhereOf(cfg, st).text, '?') == |WhereOf(cfg, st).params|
    ensures '$' !in WhereOf(cfg, st).text && '{' !in WhereOf(cfg, st).text
  {
    var t := TimeClause(st.timeRange);
    var f := FilterOf(cfg, st);
    TimeClauseCount(st.timeRange);
    var metric := ChosenMetric(cfg, st);
    ChosenMetricSafe(cfg, st);
    FilterClauseCount(cfg.filterDimensions, metric, st.filterDimension, st.filterValues);
    StubSafe();
    CountThree(WhereStub, t.text, f.text);
  }

  /** The predicate starts with the stub, and it is the bare stub exactly when there are
      no parameters. */
  lemma WhereStubOnly(cfg: Config, st: Conv)
    ensures StartsWith(WhereOf(cfg, st).text, WhereStub)
    ensures WhereOf(cfg, st).text == WhereStub <==> WhereOf(cfg, st).params == []
  {
    var w := WhereOf(cfg, st);
    assert w.text[..|WhereStub|] == WhereStub;
    var t := TimeClause(st.timeRange);
    var f := FilterOf(cfg, st);
    assert t.text == [] <==> t.params == [];
    assert f.text == [] <==> f.params == [];
    if w.text == WhereStub {
      assert |t.text + f.text| == 0;
    }
  }

  /** The filter values are the last parameters, in list order, whenever the filter
      applies; nothing is filtered for NONE, for an undeclared dimension or without
      values. */
  lemma FilterParamsInOrder(cfg: Config, st: Conv)
    ensures var f := FilterOf(cfg, st);
            f.params != [] <==>
              st.filterDimension != [] && st.filterDimension != DimNone && |st.filterValues| > 0
              && FindDimension(cfg.filterDimensions, st.filterDimension).Some?
    ensures var f := FilterOf(cfg, st);
            f.params != [] ==> |f.params| == |st.filterValues|
                               && forall i :: 0 <= i < |st.filterValues| ==> f.params[i] == Str(st.filterValues[i])
  {
  }

  /** The time parameters the source pushes for each kind of range. */
  lemma TimeClauseExamples()
    ensures TimeClause(Some(TimeRange("month", "202510", "202510"))).params == [Str("202510")]
    ensures TimeClause(Some(TimeRange("half_fy", "2025H1", "2025 上半年"))).params == [Str("2025"), Num(1), Num(6)]
    ensures TimeClause(Some(TimeRange("half_fy", "2025H2", "2025 下半年"))).params == [Str("2025"), Num(7), Num(12)]
    ensures TimeClause(Some(TimeRange("half_fy", "2025", "2025"))).params == [Str("2025"), Num(1), Num(12)]
    ensures TimeClause(Some(TimeRange("fy", "2025", "2025 财年"))).params == [Str("2025")]
    ensures TimeClause(Some(NoTimeRange)) == Clause([], [])
  {
    assert "2025H1"[4..] == "H1" && "2025H1"[..4] == "2025";
    assert "2025H2"[4..] == "H2" && "2025H2"[..4] == "2025";
  }

  lemma ShippedDimensionColumnsSafe()
    ensures var dims := MetricsConfig.Shipped.filterDimensions;
            forall i :: 0 <= i < |dims| ==> Safe(dims[i].column)
  {
    assert Safe("st_DeptName");
    assert Safe("st_OrgName");
    assert Safe("st_BP");
  }

  lemma ShippedMappedColumnsSafe()
    ensures forall m, k :: m in MetricsConfig.AllMetrics(MetricsConfig.Shipped.categories) && k in m.dimensionMap ==>
              Safe(m.dimensionMap[k])
  {
    MetricsConfig.ShippedMetrics();
    assert Safe("st_ProductLine");
  }

  /** The shipped catalog's columns are safe. */
  lemma ShippedColumnsSafe()
    ensures SafeColumns(MetricsConfig.Shipped)
  {
    ShippedDimensionColumnsSafe();
    ShippedMappedColumnsSafe();
    var cfg := MetricsConfig.Shipped;
    forall c, m, k | c in cfg.categories && m in c.metrics && k in m.dimensionMap
      ensures Safe(m.dimensionMap[k])
    {
      assert m in MetricsConfig.AllMetrics(cfg.categories);
    }
  }
}
