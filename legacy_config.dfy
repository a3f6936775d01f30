/** The catalog of the first version (version_1/config/metrics.js): one category of four
    personnel metrics, three example months and two filter dimensions. Its metrics carry no
    SQL, description, keywords or allowed types: the first server writes its statements
    out itself, so those fields are empty here. */
module LegacyConfig {
  import opened Wrappers
  import opened Catalog
  import opened MetricsConfig

  const EngineerCount1 := Metric("engineer_count", "工程师数量", "", [], Aggregate, None, "", [], [], map[])
  const EngineerDetail1 := Metric("engineer_detail", "工程师明细", "", [], Detail, None, "", [], [], map[])
  const ByProduct1 := Metric("engineer_count_by_product", "按产品统计工程师数量", "", [],
    AggregateGroup, Some("product"), "", [], [], map[])
  const ByOrg1 := Metric("engineer_count_by_org", "按组织统计工程师数量", "", [],
    AggregateGroup, Some("org"), "", [], [], map[])

  const Personnel1 := Category("personnel", "人员信息", [EngineerCount1, EngineerDetail1, ByProduct1, ByOrg1])

  const ProductDimension1 := FilterDimension("product", "产品", "product",
    [FilterValue("ct", "ct"), FilterValue("sps", "sps"), FilterValue("es", "es")])

  const OrgDimension1 := FilterDimension("org", "组织", "org",
    [FilterValue("psm", "psm"), FilterValue("非psm", "非psm")])

  const Legacy := Config([Personnel1], ["202510", "202511", "202512"], [ProductDimension1, OrgDimension1])

  lemma LegacyMetrics()
    ensures AllMetrics(Legacy.categories) == [EngineerCount1, EngineerDetail1, ByProduct1, ByOrg1]
  {
    assert Legacy.categories[1..] == [];
    assert AllMetrics(Legacy.categories) == Personnel1.metrics + AllMetrics([]);
  }

  /** Metric ids are unique. */
  lemma LegacyMetricIdsUnique()
    ensures var ms := AllMetrics(Legacy.categories);
            forall i, j :: 0 <= i < j < |ms| ==> ms[i].id != ms[j].id
  {
    LegacyMetrics();
  }

  /** Each grouping metric groups by the id of a filter dimension whose column bears the
      same name. */
  lemma LegacyGroupByIsDimension()
    ensures forall m :: m in AllMetrics(Legacy.categories) && m.kind == AggregateGroup ==>
              m.groupBy.Some? && FindDimension(Legacy.filterDimensions, m.groupBy.value).Some?
              && FindDimension(Legacy.filterDimensions, m.groupBy.value).value.column == m.groupBy.value
  {
    LegacyMetrics();
    assert FindDimension(Legacy.filterDimensions, "product") == Some(ProductDimension1);
    assert FindDimension(Legacy.filterDimensions, "org") == Some(OrgDimension1);
  }

  /** In both dimensions every value's label is its id, and ids do not repeat. */
  lemma LegacyDimensionsWellFormed()
    ensures forall d :: d in Legacy.filterDimensions ==> DimensionWellFormed(d)
  {
    assert DimensionWellFormed(ProductDimension1);
    assert DimensionWellFormed(OrgDimension1);
  }

  /** Dimension ids are unique and no column holds a `?`, so a column never adds a
      parameter mark of its own. */
  lemma LegacyDimensionColumns()
    ensures forall d :: d in Legacy.filterDimensions ==> '?' !in d.column
    ensures Legacy.filterDimensions[0].id != Legacy.filterDimensions[1].id
  {
  }
}
