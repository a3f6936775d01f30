/** Rule-based slot extraction of server.js: a month from the text, a metric by keyword
    conjunctions in catalog order, filters through the NLU helpers, and the merge with an
    optional classifier answer that fills only the slots the rules left empty. */
module Slots {
  import opened Wrappers
  import opened Text
  import opened Catalog
  import opened State
  import Nlu
  import MetricsConfig

  // ---------------------------------------------------------------- month

  /** The regular expression `20\d{4}` matches at position `i`. */
  predicate ExplicitMonthAt(text: string, i: nat) {
    i + 6 <= |text| && text[i] == '2' && text[i + 1] == '0'
    && IsDigit(text[i + 2]) && IsDigit(text[i + 3]) && IsDigit(text[i + 4]) && IsDigit(text[i + 5])
  }

  /** The leftmost match of `20\d{4}` at or after `i`. */
  function FirstExplicitMonth(text: string, i: nat): (r: Option<nat>)
    ensures r.Some? ==> i <= r.value && ExplicitMonthAt(text, r.value)
                        && forall j :: i <= j < r.value ==> !ExplicitMonthAt(text, j)
    ensures r.None? ==> forall j :: i <= j ==> !ExplicitMonthAt(text, j)
    decreases |text| - i
  {
    if i + 6 > |text| then None
    else if ExplicitMonthAt(text, i) then Some(i)
    else FirstExplicitMonth(text, i + 1)
  }

  /** Length of the digit group of `(\d{1,2})月` matched at `i`, 0 when it does not match
      there: two digits are tried before one. */
  function MonthMarkAt(text: string, i: nat): nat {
    if i + 2 < |text| && IsDigit(text[i]) && IsDigit(text[i + 1]) && text[i + 2] == '月' then 2
    else if i + 1 < |text| && IsDigit(text[i]) && text[i + 1] == '月' then 1
    else 0
  }

  /** The leftmost match of `(\d{1,2})月` at or after `i`. */
  function FirstMonthMark(text: string, i: nat): (r: Option<nat>)
    ensures r.Some? ==> i <= r.value && MonthMarkAt(text, r.value) > 0
                        && forall j :: i <= j < r.value ==> MonthMarkAt(text, j) == 0
    ensures r.None? ==> forall j :: i <= j ==> MonthMarkAt(text, j) == 0
    decreases |text| - i
  {
    if i >= |text| then None
    else if MonthMarkAt(text, i) > 0 then Some(i)
    else FirstMonthMark(text, i + 1)
  }

  /** `extractMonthFromText`: the first `20\d{4}` in the text; else the first `N月`, where
      only 10, 11 and 12 give a month (of 2025); else nothing. */
  function ExtractMonth(text: string): Option<string> {
    match FirstExplicitMonth(text, 0)
    case Some(k) => Some(text[k..k + 6])
    case None =>
      match FirstMonthMark(text, 0)
      case None => None
      case Some(k) =>
        match ParseInt(text[k..k + MonthMarkAt(text, k)])
        case None => None
        case Some(num) => MonthOfNumber(num)
  }

  /** The month a bare month number stands for: only 10, 11 and 12 are known, as months
      of 2025. */
  function MonthOfNumber(num: int): (r: Option<string>)
    ensures r.Some? <==> 10 <= num <= 12
    ensures r.Some? ==> ExplicitMonthAt(r.value, 0) && r.value == "2025" + NatToString(num)
  {
    if num == 10 then Some("202510")
    else if num == 11 then Some("202511")
    else if num == 12 then Some("202512")
    else None
  }

  /** `parseInt` of a non-empty run of digits is its decimal value. */
  lemma ParseDigits(s: string)
    requires |s| > 0 && forall i :: 0 <= i < |s| ==> IsDigit(s[i])
    ensures ParseInt(s) == Some(DigitsValue(s, |s|))
  {
    assert !IsSpace(s[0]);
    assert TrimStart(s) == s;
    DigitRunAll(s);
  }

  /** A month found in the text is always six digits starting with "20". */
  lemma ExtractMonthShape(text: string)
    ensures ExtractMonth(text).Some? ==> ExplicitMonthAt(ExtractMonth(text).value, 0)
  {
    var r := FirstExplicitMonth(text, 0);
    if r.Some? {
      var k := r.value;
      var m := text[k..k + 6];
      assert m[0] == text[k] && m[1] == text[k + 1] && m[2] == text[k + 2];
      assert m[3] == text[k + 3] && m[4] == text[k + 4] && m[5] == text[k + 5];
    }
  }

  /** The leftmost `20\d{4}` wins over everything else. */
  lemma ExtractMonthExplicit(text: string, k: nat)
    requires ExplicitMonthAt(text, k)
    requires forall j :: 0 <= j < k ==> !ExplicitMonthAt(text, j)
    ensures ExtractMonth(text) == Some(text[k..k + 6])
  {
    var r := FirstExplicitMonth(text, 0);
    assert ExplicitMonthAt(text, k);
    assert r == Some(k);
  }

  /** Without a `20\d{4}`, the first `N月` decides alone: N read as a decimal number gives
      a 2025 month for 10, 11 and 12 and nothing for any other N, even when a later `N月`
      would qualify. */
  lemma ExtractMonthMark(text: string, k: nat)
    requires forall j :: 0 <= j ==> !ExplicitMonthAt(text, j)
    requires MonthMarkAt(text, k) > 0
    requires forall j :: 0 <= j < k ==> MonthMarkAt(text, j) == 0
    ensures var n := MonthMarkAt(text, k);
            ExtractMonth(text) == MonthOfNumber(DigitsValue(text[k..k + n], n))
  {
    var r := FirstMonthMark(text, 0);
    assert MonthMarkAt(text, k) > 0;
    assert r == Some(k);
    assert FirstExplicitMonth(text, 0) == None;
    var n := MonthMarkAt(text, k);
    ParseDigits(text[k..k + n]);
  }

  /** An explicit month is taken as written. */
  lemma ExplicitMonthExample()
    ensures ExtractMonth("202511的人数") == Some("202511")
  {
    var a := "202511的人数";
    ExtractMonthExplicit(a, 0);
    assert a[0..6] == "202511";
  }

  /** A bare "10月" is October 2025. */
  lemma MonthMarkExample()
    ensures ExtractMonth("10月") == Some("202510")
  {
    var b := "10月";
    assert FirstExplicitMonth(b, 0) == None;
    ExtractMonthMark(b, 0);
    assert b[0..2] == "10";
  }

  /** In "110月" the leftmost match of `(\d{1,2})月` starts at the second digit. */
  lemma LeftmostMarkExample()
    ensures ExtractMonth("110月") == Some("202510")
  {
    var c := "110月";
    assert FirstExplicitMonth(c, 0) == None;
    assert MonthMarkAt(c, 0) == 0;
    ExtractMonthMark(c, 1);
    assert c[1..3] == "10";
  }

  /** "2025年3月" holds no six-digit month and its "3月" is not a month the rules know. */
  lemma UnknownMonthExample()
    ensures ExtractMonth("2025年3月") == None
  {
    var d := "2025年3月";
    assert FirstExplicitMonth(d, 0) == None;
    assert MonthMarkAt(d, 0) == 0 && MonthMarkAt(d, 1) == 0 && MonthMarkAt(d, 2) == 0;
    assert MonthMarkAt(d, 3) == 0 && MonthMarkAt(d, 4) == 0;
    ExtractMonthMark(d, 5);
    assert d[5..6] == "3";
  }

  // ---------------------------------------------------------------- metric

  /** `keyword.split("+").every(part => text.includes(part))`. */
  predicate KeywordMatches(text: string, keyword: string) {
    var parts := SplitOn(keyword, '+');
    forall i :: 0 <= i < |parts| ==> Contains(text, parts[i])
  }

  /** Some keyword of the metric matches the text. */
  predicate MetricMatches(text: string, m: Metric) {
    exists i :: 0 <= i < |m.keywords| && KeywordMatches(text, m.keywords[i])
  }

  /** The metric slots of an intent; `detailId` "" is null. */
  datatype KpiSlot = KpiSlot(categoryId: string, metricId: string, detailId: string)

  /** The first matching metric of one category, in declaration order. */
  function FirstMatchIn(text: string, categoryId: string, ms: seq<Metric>): Option<KpiSlot> {
    if ms == [] then None
    else if MetricMatches(text, ms[0]) then Some(KpiSlot(categoryId, ms[0].id, ""))
    else FirstMatchIn(text, categoryId, ms[1..])
  }

  /** `extractKpiFromText`: categories in order, metrics in order within each, and the
      first metric with a matching keyword wins. */
  function ExtractKpi(cats: seq<Category>, text: string): Option<KpiSlot> {
    if cats == [] then None
    else match FirstMatchIn(text, cats[0].id, cats[0].metrics)
      case Some(r) => Some(r)
      case None => ExtractKpi(cats[1..], text)
  }

  /** The catalog's metrics in scan order, each with its category id. */
  function Entries(cats: seq<Category>): seq<(string, Metric)> {
    if cats == [] then []
    else Tagged(cats[0].id, cats[0].metrics) + Entries(cats[1..])
  }

  function Tagged(categoryId: string, ms: seq<Metric>): (r: seq<(string, Metric)>)
    ensures |r| == |ms| && forall i :: 0 <= i < |ms| ==> r[i] == (categoryId, ms[i])
  {
    seq(|ms|, i requires 0 <= i < |ms| => (categoryId, ms[i]))
  }

  /** The first entry of a scan order whose metric matches. */
  predicate FirstMatching(text: string, es: seq<(string, Metric)>, r: Option<KpiSlot>) {
    match r
    case None => forall k :: 0 <= k < |es| ==> !MetricMatches(text, es[k].1)
    case Some(slot) =>
      exists k :: 0 <= k < |es| && MetricMatches(text, es[k].1) && slot == KpiSlot(es[k].0, es[k].1.id, "")
                  && forall j :: 0 <= j < k ==> !MetricMatches(text, es[j].1)
  }

  lemma {:induction false} FirstMatchInSpec(text: string, categoryId: string, ms: seq<Metric>)
    ensures FirstMatching(text, Tagged(categoryId, ms), FirstMatchIn(text, categoryId, ms))
  {
    var es := Tagged(categoryId, ms);
    if ms != [] && !MetricMatches(text, ms[0]) {
      FirstMatchInSpec(text, categoryId, ms[1..]);
      var rest := Tagged(categoryId, ms[1..]);
      assert forall k :: 0 <= k < |rest| ==> rest[k] == es[k + 1];
      match FirstMatchIn(text, categoryId, ms[1..])
      case None =>
      case Some(slot) =>
        var k :| 0 <= k < |rest| && MetricMatches(text, rest[k].1) && slot == KpiSlot(rest[k].0, rest[k].1.id, "")
                 && forall j :: 0 <= j < k ==> !MetricMatches(text, rest[j].1);
        assert forall j :: 0 <= j < k + 1 ==> !MetricMatches(text, es[j].1) by {
          forall j | 0 <= j < k + 1 ensures !MetricMatches(text, es[j].1) {
            if j > 0 {
              assert es[j] == rest[j - 1];
            }
          }
        }
    } else if ms != [] {
      assert es[0] == (categoryId, ms[0]);
    }
  }

  /** Appending a scan order after one that has no match leaves the first match alone;
      appending after a first match keeps it. */
  lemma FirstMatchingAppend(text: string, a: seq<(string, Metric)>, b: seq<(string, Metric)>,
                            ra: Option<KpiSlot>, rb: Option<KpiSlot>)
    requires FirstMatching(text, a, ra) && FirstMatching(text, b, rb)
    ensures FirstMatching(text, a + b, if ra.Some? then ra else rb)
  {
    var ab := a + b;
    match ra
    case Some(slot) =>
      var k :| 0 <= k < |a| && MetricMatches(text, a[k].1) && slot == KpiSlot(a[k].0, a[k].1.id, "")
               && forall j :: 0 <= j < k ==> !MetricMatches(text, a[j].1);
      assert ab[k] == a[k];
      assert forall j :: 0 <= j < k ==> ab[j] == a[j];
    case None =>
      assert forall k :: 0 <= k < |b| ==> ab[|a| + k] == b[k];
      match rb
      case None =>
        forall k | 0 <= k < |ab| ensures !MetricMatches(text, ab[k].1) {
          if k < |a| {
            assert ab[k] == a[k];
          } else {
            assert ab[k] == b[k - |a|];
          }
        }
      case Some(slot) =>
        var k :| 0 <= k < |b| && MetricMatches(text, b[k].1) && slot == KpiSlot(b[k].0, b[k].1.id, "")
                 && forall j :: 0 <= j < k ==> !MetricMatches(text, b[j].1);
        assert ab[|a| + k] == b[k];
        forall j | 0 <= j < |a| + k ensures !MetricMatches(text, ab[j].1) {
          if j < |a| {
            assert ab[j] == a[j];
          } else {
            assert ab[j] == b[j - |a|];
          }
        }
  }

  /** The metric found is the first one in catalog order with a matching keyword; no
      metric is found exactly when none has one. */
  lemma {:induction false} ExtractKpiFirst(cats: seq<Category>, text: string)
    ensures FirstMatching(text, Entries(cats), ExtractKpi(cats, text))
  {
    if cats != [] {
      FirstMatchInSpec(text, cats[0].id, cats[0].metrics);
      ExtractKpiFirst(cats[1..], text);
      FirstMatchingAppend(text, Tagged(cats[0].id, cats[0].metrics), Entries(cats[1..]),
                          FirstMatchIn(text, cats[0].id, cats[0].metrics), ExtractKpi(cats[1..], text));
    }
  }

  /** A single part matches when it occurs in the text. */
  lemma SinglePartKeyword(text: string, keyword: string)
    requires '+' !in keyword && Contains(text, keyword)
    ensures KeywordMatches(text, keyword)
  {
    SplitNone(keyword, '+');
  }

  /** "各产品人数" matches the keyword "人数" of the plain engineer count. */
  lemma CountMatchesShadowText()
    ensures MetricMatches("各产品人数", MetricsConfig.EngineerCount)
  {
    var text := "各产品人数";
    assert OccursAt(text, "人数", 3);
    SinglePartKeyword(text, "人数");
    assert MetricsConfig.EngineerCount.keywords[2] == "人数";
  }

  /** "各产品人数" also matches the keyword "各产品+人数" of the per-product count. */
  lemma ByProductMatchesShadowText()
    ensures MetricMatches("各产品人数", MetricsConfig.EngineerCountByProduct)
  {
    var text := "各产品人数";
    var kw := "各产品+人数";
    assert kw[..3] == "各产品" && kw[4..] == "人数";
    SplitHalves(kw, '+', 3);
    assert OccursAt(text, "人数", 3);
    assert OccursAt(text, "各产品", 0);
    assert KeywordMatches(text, kw);
    assert MetricsConfig.EngineerCountByProduct.keywords[1] == kw;
  }

  /** Both the plain count and the per-product count match "各产品人数", and the plain
      count, declared first, is the one found. */
  lemma KeywordShadowing()
    ensures MetricMatches("各产品人数", MetricsConfig.EngineerCountByProduct)
    ensures ExtractKpi(MetricsConfig.Shipped.categories, "各产品人数")
            == Some(KpiSlot("personnel", "engineer_count", ""))
  {
    CountMatchesShadowText();
    ByProductMatchesShadowText();
    assert MetricsConfig.Shipped.categories[0].metrics[0] == MetricsConfig.EngineerCount;
  }

  /** Splitting at the only separator gives the two sides. */
  lemma SplitHalves(s: string, c: char, k: nat)
    requires k < |s| && s[k] == c && c !in s[..k] && c !in s[k + 1..]
    ensures SplitOn(s, c) == [s[..k], s[k + 1..]]
  {
    SplitFirst(s, c, k);
    SplitNone(s[k + 1..], c);
  }

  lemma {:induction false} SplitFirst(s: string, c: char, k: nat)
    requires k < |s| && s[k] == c && c !in s[..k]
    ensures SplitOn(s, c) == [s[..k]] + SplitOn(s[k + 1..], c)
  {
    if k > 0 {
      assert s[0] != c by { assert s[0] == s[..k][0]; }
      assert c !in s[1..][..k - 1] by { assert s[1..][..k - 1] == s[..k][1..]; }
      SplitFirst(s[1..], c, k - 1);
      assert s[1..][k..] == s[k + 1..];
      assert [s[0]] + s[1..][..k - 1] == s[..k];
    }
  }

  lemma {:induction false} SplitNone(s: string, c: char)
    requires c !in s
    ensures SplitOn(s, c) == [s]
  {
    if s != [] {
      assert c !in s[1..];
      SplitNone(s[1..], c);
      assert [s[0]] + s[1..] == s;
    }
  }

  // ---------------------------------------------------------------- entities

  /** An intent, as the classifier returns one and as the merge returns its result: ids
      "" and an empty `filterDimension` are null. */
  datatype Intent = Intent(
    categoryId: string,
    metricId: string,
    detailId: string,
    timeRange: Option<TimeRange>,
    filterDimension: string,
    filterValues: seq<string>)

  /** The `extractFiltersFromText` wrapper of server.js: the NLU result when it names the
      product or the org dimension. */
  function TextFilters(dims: seq<FilterDimension>, text: string): (r: Option<Nlu.Filters>)
    ensures r.Some? ==> r.value.dimension == DimProduct || r.value.dimension == DimOrg
  {
    match Nlu.FiltersOf(dims, text)
    case None => None
    case Some(f) =>
      if f.dimension == DimProduct then Some(Nlu.Filters(DimProduct, f.values))
      else if f.dimension == DimOrg then Some(Nlu.Filters(DimOrg, f.values))
      else None
  }

  /** The NLU helpers only ever name the product or the org dimension, so the wrapper
      passes their result on unchanged. */
  lemma TextFiltersAsNlu(dims: seq<FilterDimension>, text: string)
    ensures TextFilters(dims, text) == Nlu.FiltersOf(dims, text)
  {
  }

  /** The merge step of `extractEntitiesFromText`: the slots the rules found in the text,
      then, only when no metric was found, the classifier's answer for the slots still
      empty. `classifier` is None when the classifier fails or answers nothing. */
  function Merge(kpiText: Option<KpiSlot>, month: Option<string>, filters: Option<Nlu.Filters>,
                 classifier: Option<Intent>): Option<Intent>
  {
    var timeText := if month.Some? then Some(MonthRange(month.value)) else None;
    var dimText := if filters.Some? then filters.value.dimension else "";
    var valsText := if filters.Some? then filters.value.values else [];
    var asked := kpiText.None? && classifier.Some?;
    var kpi :=
      if asked && classifier.value.metricId != ""
      then Some(KpiSlot(classifier.value.categoryId, classifier.value.metricId, classifier.value.detailId))
      else kpiText;
    var time :=
      if asked && timeText.None? && classifier.value.timeRange.Some? then classifier.value.timeRange
      else timeText;
    var fillDim := asked && dimText == "" && classifier.value.filterDimension != "";
    var dim := if fillDim then classifier.value.filterDimension else dimText;
    var vals := if fillDim then classifier.value.filterValues else valsText;
    if kpi.None? && time.None? && dim == "" then None
    else if kpi.None? then Some(Intent("", "", "", time, dim, vals))
    else Some(Intent(kpi.value.categoryId, kpi.value.metricId, kpi.value.detailId, time, dim, vals))
  }

  /** `extractEntitiesFromText`: nothing for blank text; otherwise month, filters and
      metric are read from the trimmed text and merged with the classifier's answer for
      that text. */
  function ExtractEntities(cfg: Config, text: string, classifier: Option<Intent>): Option<Intent> {
    var t := Trim(text);
    if t == [] then None
    else Merge(ExtractKpi(cfg.categories, t), ExtractMonth(t), TextFilters(cfg.filterDimensions, t), classifier)
  }

  /** When the keyword rules find a metric the classifier is never consulted: any two
      classifier answers give the same result. */
  lemma ClassifierUnused(kpiText: Option<KpiSlot>, month: Option<string>, filters: Option<Nlu.Filters>,
                         c1: Option<Intent>, c2: Option<Intent>)
    requires kpiText.Some?
    ensures Merge(kpiText, month, filters, c1) == Merge(kpiText, month, filters, c2)
  {
  }

  /** Slots found in the text are kept: the metric from the keyword rules, the month as a
      month range labelled by its value, and the filters from the NLU helpers. */
  lemma TextSlotsKept(kpiText: Option<KpiSlot>, month: Option<string>, filters: Option<Nlu.Filters>,
                      classifier: Option<Intent>)
    ensures var r := Merge(kpiText, month, filters, classifier);
            && (kpiText.Some? ==>
                 r.Some? && r.value.categoryId == kpiText.value.categoryId
                 && r.value.metricId == kpiText.value.metricId && r.value.detailId == kpiText.value.detailId)
            && (month.Some? ==> r.Some? && r.value.timeRange == Some(MonthRange(month.value)))
            && (filters.Some? && filters.value.dimension != "" ==>
                 r.Some? && r.value.filterDimension == filters.value.dimension
                 && r.value.filterValues == filters.value.values)
  {
  }

  /** Without a keyword metric, the classifier's answer fills each slot the text left
      empty, and only those: its metric when it names one, its time range when the text
      has no month, its dimension and values when the text has no filter. */
  lemma ClassifierFills(month: Option<string>, filters: Option<Nlu.Filters>, ci: Intent)
    requires filters.Some? ==> filters.value.dimension != ""
    ensures var r := Merge(None, month, filters, Some(ci));
            && (ci.metricId != "" ==>
                 r.Some? && r.value.categoryId == ci.categoryId && r.value.metricId == ci.metricId
                 && r.value.detailId == ci.detailId)
            && (ci.metricId == "" && r.Some? ==> r.value.metricId == "")
            && (month.None? && ci.timeRange.Some? ==> r.Some? && r.value.timeRange == ci.timeRange)
            && (month.None? && ci.timeRange.None? && r.Some? ==> r.value.timeRange.None?)
            && (filters.None? && ci.filterDimension != "" ==>
                 r.Some? && r.value.filterDimension == ci.filterDimension && r.value.filterValues == ci.filterValues)
            && (filters.None? && ci.filterDimension == "" && r.Some? ==> r.value.filterDimension == "")
  {
  }

  /** There is no result exactly when neither the rules nor the classifier found a
      metric, a time or a filter dimension. */
  lemma MergeNoneIff(kpiText: Option<KpiSlot>, month: Option<string>, filters: Option<Nlu.Filters>,
                     classifier: Option<Intent>)
    requires filters.Some? ==> filters.value.dimension != ""
    ensures Merge(kpiText, month, filters, classifier).None? <==>
              kpiText.None? && month.None? && filters.None?
              && (classifier.None? ||
                  (classifier.value.metricId == "" && classifier.value.timeRange.None?
                   && classifier.value.filterDimension == ""))
  {
  }

  /** The classifier of server.js always answers with a dimension, "NONE" at least, and
      "NONE" is a non-empty string: so once it answers, there is a result even when
      nothing else was recognised. */
  lemma ClassifierAnswerNeverNone(kpiText: Option<KpiSlot>, month: Option<string>, filters: Option<Nlu.Filters>,
                                  ci: Intent)
    requires ci.filterDimension in {DimNone, DimProduct, DimOrg}
    ensures Merge(kpiText, month, filters, Some(ci)).Some?
  {
  }

  /** Blank text yields nothing, whatever the classifier says; text in which the keyword
      rules find a metric yields the same as if there were no classifier at all. */
  lemma EntitiesOfText(cfg: Config, text: string, classifier: Option<Intent>)
    ensures Trim(text) == [] ==> ExtractEntities(cfg, text, classifier) == None
    ensures Trim(text) != [] && ExtractKpi(cfg.categories, Trim(text)).Some? ==>
              ExtractEntities(cfg, text, classifier) == ExtractEntities(cfg, text, None)
  {
    var t := Trim(text);
    if t != [] && ExtractKpi(cfg.categories, t).Some? {
      ClassifierUnused(ExtractKpi(cfg.categories, t), ExtractMonth(t), TextFilters(cfg.filterDimensions, t),
                       classifier, None);
    }
  }
}
