/** The declarative metric catalog (config/metrics.js and version_1/config/metrics.js):
    categories of metrics, each metric with its SQL template, and the filter dimensions
    with their values; plus the `find` lookups the server runs over it. */
module Catalog {
  import opened Wrappers
  import opened Text

  /** A metric's `kind`: one count, counts per group, or a row listing. */
  datatype MetricKind = Aggregate | AggregateGroup | Detail

  /** `label` of the catalog is `caption` here, since `label` is a Dafny keyword. */
  datatype FilterValue = FilterValue(id: string, caption: string)

  datatype FilterDimension = FilterDimension(id: string, caption: string, column: string, values: seq<FilterValue>)

  /** A metric. `sql` is a template holding a `{where}` slot; `groupBy` is absent for
      metrics that do not group; `dimensionMap` maps a filter dimension to the column
      this metric's table uses for it (empty when the catalog gives none). */
  datatype Metric = Metric(
    id: string,
    caption: string,
    description: string,
    keywords: seq<string>,
    kind: MetricKind,
    groupBy: Option<string>,
    sql: string,
    allowedTimeTypes: seq<string>,
    allowedFilterDimensions: seq<string>,
    dimensionMap: map<string, string>)

  datatype Category = Category(id: string, caption: string, metrics: seq<Metric>)

  datatype Config = Config(categories: seq<Category>, timeExamples: seq<string>, filterDimensions: seq<FilterDimension>)

  // ---------------------------------------------------------------- lookups

  /** `categories.find(c => c.id === id)`. */
  function FindCategory(cats: seq<Category>, id: string): (r: Option<Category>)
    ensures r.Some? ==> r.value in cats && r.value.id == id
    ensures r.None? ==> forall c :: c in cats ==> c.id != id
  {
    if cats == [] then None
    else if cats[0].id == id then Some(cats[0])
    else FindCategory(cats[1..], id)
  }

  /** `categories.find(c => c.label === label || c.id === label)`. */
  function FindCategoryByLabel(cats: seq<Category>, text: string): (r: Option<Category>)
    ensures r.Some? ==> r.value in cats && (r.value.caption == text || r.value.id == text)
    ensures r.None? ==> forall c :: c in cats ==> c.caption != text && c.id != text
  {
    if cats == [] then None
    else if cats[0].caption == text || cats[0].id == text then Some(cats[0])
    else FindCategoryByLabel(cats[1..], text)
  }

  /** `category.metrics.find(m => m.id === id)`. */
  function FindMetricIn(ms: seq<Metric>, id: string): (r: Option<Metric>)
    ensures r.Some? ==> r.value in ms && r.value.id == id
    ensures r.None? ==> forall m :: m in ms ==> m.id != id
  {
    if ms == [] then None
    else if ms[0].id == id then Some(ms[0])
    else FindMetricIn(ms[1..], id)
  }

  /** The metric the server resolves for a state: the category by id, then the metric by
      id inside that category only. */
  function FindMetric(cfg: Config, categoryId: string, metricId: string): (r: Option<Metric>)
    ensures r.Some? <==> FindCategory(cfg.categories, categoryId).Some?
                         && exists m :: m in FindCategory(cfg.categories, categoryId).value.metrics && m.id == metricId
    ensures r.Some? ==> r.value.id == metricId && r.value in FindCategory(cfg.categories, categoryId).value.metrics
  {
    match FindCategory(cfg.categories, categoryId)
    case None => None
    case Some(c) => FindMetricIn(c.metrics, metricId)
  }

  /** `filterDimensions.find(d => d.id === id)`. */
  function FindDimension(dims: seq<FilterDimension>, id: string): (r: Option<FilterDimension>)
    ensures r.Some? ==> r.value in dims && r.value.id == id
    ensures r.None? ==> forall d :: d in dims ==> d.id != id
  {
    if dims == [] then None
    else if dims[0].id == id then Some(dims[0])
    else FindDimension(dims[1..], id)
  }

  // ---------------------------------------------------------------- SQL templates

  const WherePlaceholder := "{where}"

  /** A template with exactly one `{where}` slot: the first `{where}` is the only `{`
      in the text, and the text after it continues with " AND ". */
  predicate WhereSlot(sql: string) {
    match IndexFrom(sql, WherePlaceholder, 0)
    case None => false
    case Some(k) => '{' !in sql[..k] && '{' !in sql[k + |WherePlaceholder|..]
                    && OccursAt(sql, " AND ", k + |WherePlaceholder|)
  }

  /** The head of a template: everything before its `{where}` slot. */
  function SlotHead(sql: string): (r: string)
    requires WhereSlot(sql)
    ensures '{' !in r
  {
    sql[..IndexFrom(sql, WherePlaceholder, 0).value]
  }

  /** The tail of a template: everything after its `{where}` slot. */
  function SlotTail(sql: string): (r: string)
    requires WhereSlot(sql)
    ensures '{' !in r && |r| >= 5 && r[..5] == " AND "
  {
    var k := IndexFrom(sql, WherePlaceholder, 0).value;
    assert sql[k + 7..][..5] == sql[k + 7..k + 12];
    sql[k + |WherePlaceholder|..]
  }

  lemma SlotSplit(sql: string)
    requires WhereSlot(sql)
    ensures sql == SlotHead(sql) + WherePlaceholder + SlotTail(sql)
  {
    var k := IndexFrom(sql, WherePlaceholder, 0).value;
    assert sql[k..k + 7] == WherePlaceholder;
    assert sql == sql[..k] + sql[k..k + 7] + sql[k + 7..];
  }

  /** A template written as head, slot, " AND " and the rest has exactly one slot when
      neither head nor rest holds a `{`. */
  lemma WhereSlotOf(head: string, rest: string)
    requires '{' !in head && '{' !in rest
    ensures WhereSlot(head + WherePlaceholder + (" AND " + rest))
  {
    var tail := " AND " + rest;
    var s := head + WherePlaceholder + tail;
    assert s == head + (WherePlaceholder + tail);
    IndexFromSkip(head, WherePlaceholder + tail, WherePlaceholder);
    assert OccursAt(WherePlaceholder + tail, WherePlaceholder, 0) by {
      assert (WherePlaceholder + tail)[..7] == WherePlaceholder;
    }
    assert IndexFrom(WherePlaceholder + tail, WherePlaceholder, 0) == Some(0);
    var k := |head|;
    assert s[..k] == head;
    assert s[k + 7..] == tail;
    assert s[k + 7..k + 12] == " AND ";
  }

  /** `sql.replace("{where}", where)`: a where clause with no `$` lands in the one slot,
      and no `{` is left when the clause has none. */
  lemma SubstituteWhere(sql: string, where: string)
    requires WhereSlot(sql) && '$' !in where
    ensures ReplaceFirst(sql, WherePlaceholder, where) == SlotHead(sql) + where + SlotTail(sql)
    ensures '{' !in where ==> '{' !in ReplaceFirst(sql, WherePlaceholder, where)
  {
    SlotSplit(sql);
    ReplaceFirstUnique(SlotHead(sql), WherePlaceholder, SlotTail(sql), where);
  }
}
