/** The shipped catalog, config/metrics.js, as a constant, with the well-formedness facts
    the server relies on. Long SQL texts are written as concatenations of shorter pieces;
    the strings are the catalog's own, character for character. */
module MetricsConfig {
  import opened Wrappers
  import opened Text
  import opened Catalog

  const RosterTable := " FROM dws_tas_roster "
  const RosterConditions := "st_EmpAvailable='1' AND st_ClassName='FE'"
  const MachineTable := " FROM dws_wisdom_machine "
  const MachineConditions := "st_MachineClusterFlag='R'"
  const DeptColumn := "st_DeptName"
  const OrgColumn := "st_OrgName"

  const CountHead := "SELECT COUNT(*) AS value"
  const EngineerDetailHead := "SELECT st_EmpID, st_EmpNameCN," + " st_EmpNameEN, st_DeptName, st_OrgName"
  const ByProductHead := "SELECT " + DeptColumn + "," + " COUNT(*) AS value"
  const ByOrgHead := "SELECT " + OrgColumn + "," + " COUNT(*) AS value"
  const MachineDetailHead := "SELECT st_SN, st_ProductLine," + " st_BP, st_MachineModelName"

  // Each template is written as head, `{where}`, then " AND " and the rest.
  const EngineerCountSql := CountHead + RosterTable + WherePlaceholder + (" AND " + RosterConditions)
  const EngineerDetailSql := EngineerDetailHead + RosterTable + WherePlaceholder
                             + (" AND " + (RosterConditions + " ORDER BY st_WrMonth DESC, st_EmpID"))
  const ByProductSql := ByProductHead + RosterTable + WherePlaceholder
                        + (" AND " + (RosterConditions + (" GROUP BY " + DeptColumn)))
  const ByOrgSql := ByOrgHead + RosterTable + WherePlaceholder
                    + (" AND " + (RosterConditions + (" GROUP BY " + OrgColumn)))
  const MachineCountSql := CountHead + MachineTable + WherePlaceholder + (" AND " + MachineConditions)
  const MachineDetailSql := MachineDetailHead + MachineTable + WherePlaceholder + (" AND " + MachineConditions)

  const EngineerCount := Metric(
    "engineer_count", "工程师数量", "查询工程师的总人数、有多少工程师、人数统计",
    ["工程师+数量", "工程师+多少", "人数"], Aggregate, None, EngineerCountSql,
    ["month", "half_fy", "fy"], ["product", "org"], map[])

  const EngineerDetail := Metric(
    "engineer_detail", "工程师明细", "查询工程师的详细名单、明细数据、具体人员列表",
    ["工程师+名单", "人员+明细", "详细+名单", "工程师+明细"], Detail, None, EngineerDetailSql,
    ["month"], ["product", "org"], map[])

  const EngineerCountByProduct := Metric(
    "engineer_count_by_product", "按产品统计工程师数量", "按产品线分组统计工程师数量、各产品有多少人",
    ["按产品", "各产品+人数"], AggregateGroup, Some(DeptColumn), ByProductSql,
    ["month", "fy"], ["product"], map[])

  const EngineerCountByOrg := Metric(
    "engineer_count_by_org", "按组织统计工程师数量", "按部门/组织分组统计工程师数量、各部门有多少人",
    ["按组织", "按部门", "各部门+人数"], AggregateGroup, Some(OrgColumn), ByOrgSql,
    ["month", "half_fy", "fy"], ["org"], map[])

  const MachineCount := Metric(
    "machine_count", "机台数量统计", "查询机台的总数量、有多少机台、设备数量统计",
    ["机台+数量", "设备+数量", "多少+机台", "多少+台"], Aggregate, None, MachineCountSql,
    [], ["product", "customer"], map["product" := "st_ProductLine"])

  const MachineDetail := Metric(
    "machine_detail", "机台明细", "查询机台的详细列表、设备清单",
    ["机台+明细", "设备+清单", "机台+列表"], Detail, None, MachineDetailSql,
    [], ["product", "customer"], map["product" := "st_ProductLine"])

  const Personnel := Category("personnel", "人员信息",
    [EngineerCount, EngineerDetail, EngineerCountByProduct, EngineerCountByOrg])

  const Machine := Category("machine", "机台信息", [MachineCount, MachineDetail])

  const ProductDimension := FilterDimension("product", "产品", "st_DeptName",
    [FilterValue("CT", "CT"), FilterValue("SPS", "SPS"), FilterValue("ES", "ES"),
     FilterValue("3DI", "3DI"), FilterValue("CERTAS", "CERTAS")])

  const OrgDimension := FilterDimension("org", "组织", "st_OrgName",
    [FilterValue("PSM", "PSM"), FilterValue("非PSM", "非PSM")])

  const CustomerDimension := FilterDimension("customer", "客户", "st_BP",
    [FilterValue("BYD", "BYD"), FilterValue("CATL", "CATL"), FilterValue("Tesla", "Tesla"),
     FilterValue("NIO", "NIO")])

  const Shipped := Config([Personnel, Machine], ["202510", "202511", "202512"],
    [ProductDimension, OrgDimension, CustomerDimension])

  /** Every metric of the catalog, in declaration order (categories, then metrics). */
  function AllMetrics(cats: seq<Category>): (r: seq<Metric>)
    ensures forall c, m :: c in cats && m in c.metrics ==> m in r
    ensures forall m :: m in r ==> exists c :: c in cats && m in c.metrics
  {
    if cats == [] then [] else cats[0].metrics + AllMetrics(cats[1..])
  }

  lemma ShippedMetrics()
    ensures AllMetrics(Shipped.categories)
         == [EngineerCount, EngineerDetail, EngineerCountByProduct, EngineerCountByOrg,
             MachineCount, MachineDetail]
  {
    assert Shipped.categories[1..] == [Machine];
    assert [Machine][1..] == [];
    calc {
      AllMetrics(Shipped.categories);
      Personnel.metrics + AllMetrics([Machine]);
      Personnel.metrics + (Machine.metrics + AllMetrics([]));
    }
  }

  /** Metric ids are unique across all categories. */
  lemma MetricIdsUnique()
    ensures var ms := AllMetrics(Shipped.categories);
            forall i, j :: 0 <= i < j < |ms| ==> ms[i].id != ms[j].id
  {
    ShippedMetrics();
  }

  // ---------------------------------------------------------------- per-metric facts

  predicate KnownTimeTypes(m: Metric) {
    forall t :: t in m.allowedTimeTypes ==> t == "month" || t == "half_fy" || t == "fy"
  }

  predicate DeclaredDimensions(dims: seq<FilterDimension>, m: Metric) {
    (forall d :: d in m.allowedFilterDimensions ==> FindDimension(dims, d).Some?)
    && (forall d :: d in m.dimensionMap ==> FindDimension(dims, d).Some?)
  }

  /** A grouped metric selects its `groupBy` column first and groups by it last. */
  predicate GroupedShape(m: Metric) {
    m.kind == AggregateGroup ==>
      m.groupBy.Some? && StartsWith(m.sql, "SELECT " + m.groupBy.value + ",")
      && EndsWith(m.sql, " GROUP BY " + m.groupBy.value)
  }

  /** An `aggregate` metric begins with the select the chart rewrite looks for. */
  predicate AggregateShape(m: Metric) {
    m.kind == Aggregate ==> StartsWith(m.sql, CountHead)
  }

  predicate GroupByNotDimension(dims: seq<FilterDimension>, m: Metric) {
    m.groupBy.Some? ==> m.groupBy.value != "NONE" && FindDimension(dims, m.groupBy.value).None?
  }

  predicate MetricWellFormed(dims: seq<FilterDimension>, m: Metric) {
    WhereSlot(m.sql) && KnownTimeTypes(m) && DeclaredDimensions(dims, m)
    && GroupedShape(m) && AggregateShape(m) && GroupByNotDimension(dims, m)
  }

  /** `head + {where} + " AND " + rest` starts as its head does and ends as its rest does. */
  lemma TemplateEnds(head: string, table: string, rest: string, start: string, tail: string)
    requires StartsWith(head, start) && EndsWith(rest, tail)
    ensures var sql := head + table + WherePlaceholder + (" AND " + rest);
            StartsWith(sql, start) && EndsWith(sql, tail)
  {
    StartsWithAppend(head, table, start);
    StartsWithAppend(head + table, WherePlaceholder, start);
    StartsWithAppend(head + table + WherePlaceholder, " AND " + rest, start);
    EndsWithPrepend(" AND ", rest, tail);
    EndsWithPrepend(head + table + WherePlaceholder, " AND " + rest, tail);
  }

  /** The head and tail of a grouped template name its column. */
  lemma GroupedEnds(column: string)
    ensures StartsWith("SELECT " + column + "," + " COUNT(*) AS value", "SELECT " + column + ",")
    ensures EndsWith(RosterConditions + (" GROUP BY " + column), " GROUP BY " + column)
  {
    StartsWithAppend("SELECT " + column + ",", " COUNT(*) AS value", "SELECT " + column + ",");
    EndsWithPrepend(RosterConditions, " GROUP BY " + column, " GROUP BY " + column);
  }

  lemma CountHeadStarts(table: string, rest: string)
    ensures StartsWith(CountHead + table + WherePlaceholder + (" AND " + rest), CountHead)
  {
    assert StartsWith(CountHead, CountHead);
    StartsWithAppend(CountHead, table, CountHead);
    StartsWithAppend(CountHead + table, WherePlaceholder, CountHead);
    StartsWithAppend(CountHead + table + WherePlaceholder, " AND " + rest, CountHead);
  }

  // No piece of a template holds a `{`; one small lemma per group of pieces.

  lemma RosterPiecesBraceFree()
    ensures '{' !in RosterTable && '{' !in RosterConditions
  {
  }

  lemma MachinePiecesBraceFree()
    ensures '{' !in MachineTable && '{' !in MachineConditions
  {
  }

  lemma CountHeadsBraceFree()
    ensures '{' !in CountHead && '{' !in ByProductHead && '{' !in ByOrgHead
  {
  }

  lemma DetailHeadsBraceFree()
    ensures '{' !in EngineerDetailHead && '{' !in MachineDetailHead
  {
  }

  lemma TailsBraceFree()
    ensures '{' !in " ORDER BY st_WrMonth DESC, st_EmpID"
    ensures '{' !in " GROUP BY " + DeptColumn && '{' !in " GROUP BY " + OrgColumn
  {
  }

  lemma EngineerCountWellFormed()
    ensures MetricWellFormed(Shipped.filterDimensions, EngineerCount)
  {
    RosterPiecesBraceFree();
    CountHeadsBraceFree();
    WhereSlotOf(CountHead + RosterTable, RosterConditions);
    CountHeadStarts(RosterTable, RosterConditions);
  }

  lemma EngineerDetailWellFormed()
    ensures MetricWellFormed(Shipped.filterDimensions, EngineerDetail)
  {
    RosterPiecesBraceFree();
    DetailHeadsBraceFree();
    TailsBraceFree();
    WhereSlotOf(EngineerDetailHead + RosterTable, RosterConditions + " ORDER BY st_WrMonth DESC, st_EmpID");
  }

  lemma ByProductWellFormed()
    ensures MetricWellFormed(Shipped.filterDimensions, EngineerCountByProduct)
  {
    RosterPiecesBraceFree();
    CountHeadsBraceFree();
    TailsBraceFree();
    WhereSlotOf(ByProductHead + RosterTable, RosterConditions + (" GROUP BY " + DeptColumn));
    GroupedEnds(DeptColumn);
    TemplateEnds(ByProductHead, RosterTable, RosterConditions + (" GROUP BY " + DeptColumn),
                 "SELECT " + DeptColumn + ",", " GROUP BY " + DeptColumn);
  }

  lemma ByOrgWellFormed()
    ensures MetricWellFormed(Shipped.filterDimensions, EngineerCountByOrg)
  {
    RosterPiecesBraceFree();
    CountHeadsBraceFree();
    TailsBraceFree();
    WhereSlotOf(ByOrgHead + RosterTable, RosterConditions + (" GROUP BY " + OrgColumn));
    GroupedEnds(OrgColumn);
    TemplateEnds(ByOrgHead, RosterTable, RosterConditions + (" GROUP BY " + OrgColumn),
                 "SELECT " + OrgColumn + ",", " GROUP BY " + OrgColumn);
  }

  lemma MachineCountWellFormed()
    ensures MetricWellFormed(Shipped.filterDimensions, MachineCount)
  {
    MachinePiecesBraceFree();
    CountHeadsBraceFree();
    WhereSlotOf(CountHead + MachineTable, MachineConditions);
    CountHeadStarts(MachineTable, MachineConditions);
  }

  lemma MachineDetailWellFormed()
    ensures MetricWellFormed(Shipped.filterDimensions, MachineDetail)
  {
    MachinePiecesBraceFree();
    DetailHeadsBraceFree();
    WhereSlotOf(MachineDetailHead + MachineTable, MachineConditions);
  }

  lemma AllMetricsWellFormed()
    ensures forall m :: m in AllMetrics(Shipped.categories) ==> MetricWellFormed(Shipped.filterDimensions, m)
  {
    ShippedMetrics();
    EngineerCountWellFormed();
    EngineerDetailWellFormed();
    ByProductWellFormed();
    ByOrgWellFormed();
    MachineCountWellFormed();
    MachineDetailWellFormed();
  }

  // ---------------------------------------------------------------- catalog-wide facts

  /** Every SQL template has exactly one `{where}` slot, continued by " AND …". */
  lemma SqlWhereSlots()
    ensures forall m :: m in AllMetrics(Shipped.categories) ==> WhereSlot(m.sql)
  {
    AllMetricsWellFormed();
  }

  /** Each grouped metric selects its `groupBy` column first and groups by it last. */
  lemma GroupColumnsSelectedAndGrouped()
    ensures forall m :: m in AllMetrics(Shipped.categories) && m.kind == AggregateGroup ==>
              m.groupBy.Some? && StartsWith(m.sql, "SELECT " + m.groupBy.value + ",")
              && EndsWith(m.sql, " GROUP BY " + m.groupBy.value)
  {
    AllMetricsWellFormed();
  }

  /** Both `aggregate` templates begin with the select the chart rewrite looks for. */
  lemma AggregateSqlShape()
    ensures forall m :: m in AllMetrics(Shipped.categories) && m.kind == Aggregate ==>
              StartsWith(m.sql, CountHead)
  {
    AllMetricsWellFormed();
  }

  /** Time types come from {month, half_fy, fy}; the machine metrics offer none. */
  lemma TimeTypesAllowed()
    ensures forall m, t :: m in AllMetrics(Shipped.categories) && t in m.allowedTimeTypes ==>
              t == "month" || t == "half_fy" || t == "fy"
    ensures forall m :: m in Machine.metrics ==> m.allowedTimeTypes == []
  {
    AllMetricsWellFormed();
  }

  /** Every dimension a metric allows or remaps is declared. */
  lemma DimensionReferencesDeclared()
    ensures forall m, d :: m in AllMetrics(Shipped.categories) && d in m.allowedFilterDimensions ==>
              FindDimension(Shipped.filterDimensions, d).Some?
    ensures forall m, d :: m in AllMetrics(Shipped.categories) && d in m.dimensionMap ==>
              FindDimension(Shipped.filterDimensions, d).Some?
  {
    AllMetricsWellFormed();
  }

  /** No grouped metric's `groupBy` is the id of a filter dimension or "NONE": the
      comparison `filterDimension === groupBy` can never hold for a dimension chosen
      from the catalog, so grouped results are never reconciled. */
  lemma GroupByIsNoDimension()
    ensures forall m, d :: m in AllMetrics(Shipped.categories) && m.groupBy.Some? && d in Shipped.filterDimensions ==>
              m.groupBy.value != d.id && m.groupBy.value != "NONE"
  {
    AllMetricsWellFormed();
  }

  /** Within a dimension, value ids are unique and every label equals its id. */
  predicate DimensionWellFormed(d: FilterDimension) {
    (forall v :: v in d.values ==> v.caption == v.id)
    && (forall i, j :: 0 <= i < j < |d.values| ==> d.values[i].id != d.values[j].id)
  }

  lemma ProductDimensionWellFormed()
    ensures DimensionWellFormed(ProductDimension)
  {
  }

  lemma OrgDimensionWellFormed()
    ensures DimensionWellFormed(OrgDimension)
  {
  }

  lemma CustomerDimensionWellFormed()
    ensures DimensionWellFormed(CustomerDimension)
  {
  }

  lemma FilterValuesWellFormed()
    ensures forall d :: d in Shipped.filterDimensions ==> DimensionWellFormed(d)
  {
    ProductDimensionWellFormed();
    OrgDimensionWellFormed();
    CustomerDimensionWellFormed();
  }
}
