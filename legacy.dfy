/** The first version of the dialogue (version_1/server.js): a single time-range step,
    substring tests for months and filters, keyword rules before the classifier, and
    statements written out per metric. Replies and button lists are not modelled; the
    classifier's answer and the database's answer are inputs. */
module Legacy {
  import opened Wrappers
  import opened Text
  import opened Catalog
  import State
  import LegacyConfig
  import Nlu

  // ---------------------------------------------------------------- state

  datatype Stage =
    | KpiCategorySelect
    | KpiMetricSelect
    | TimeRangeSelect
    | FilterDimensionSelect
    | FilterValueSelect
    | SummaryConfirm
    | ExecutingQuery
    | ShowResult

  /** The state record of one conversation; ids use "" for null. */
  datatype Conv = Conv(
    stage: Stage,
    categoryId: string,
    metricId: string,
    detailId: string,
    timeRange: Option<State.TimeRange>,
    filterDimension: string,
    filterValues: seq<string>,
    lastQueryResult: Option<seq<State.Row>>)

  /** `createEmptyState`. */
  const EmptyConv := Conv(KpiCategorySelect, "", "", "", None, State.DimNone, [], None)

  /** What the text or the classifier yields: the slots to write into the state. A missing
      filter dimension is "". */
  datatype Intent = Intent(
    categoryId: string,
    metricId: string,
    detailId: string,
    timeRange: Option<State.TimeRange>,
    filterDimension: string,
    filterValues: seq<string>)

  // ---------------------------------------------------------------- extractMonthFromText

  predicate AllDigits(s: string) {
    forall k :: 0 <= k < |s| ==> IsDigit(s[k])
  }

  /** `/20\d{4}/` matches at `i`. */
  predicate YearMonthAt(text: string, i: nat) {
    i + 6 <= |text| && text[i] == '2' && text[i + 1] == '0' && AllDigits(text[i + 2..i + 6])
  }

  /** The leftmost match of `/20\d{4}/` at or after `from`. */
  function FirstYearMonth(text: string, from: nat): (r: Option<nat>)
    ensures r.Some? ==> from <= r.value && YearMonthAt(text, r.value)
    ensures forall j: nat :: from <= j && (r.None? || j < r.value) ==> !YearMonthAt(text, j)
    decreases |text| - from
  {
    if from + 6 > |text| then None
    else if YearMonthAt(text, from) then Some(from)
    else FirstYearMonth(text, from + 1)
  }

  /** The number `/(\d{1,2})月/` captures when it matches at `i`: two digits when two
      digits stand before the 月, else one. */
  function MonthWordAt(text: string, i: nat): Option<nat> {
    if i + 3 <= |text| && IsDigit(text[i]) && IsDigit(text[i + 1]) && text[i + 2] == '月'
    then Some(DigitValue(text[i]) * 10 + DigitValue(text[i + 1]))
    else if i + 2 <= |text| && IsDigit(text[i]) && text[i + 1] == '月'
    then Some(DigitValue(text[i]))
    else None
  }

  /** The leftmost match of `/(\d{1,2})月/` at or after `from`. */
  function FirstMonthWord(text: string, from: nat): (r: Option<nat>)
    ensures r.Some? ==> from <= r.value && MonthWordAt(text, r.value).Some?
    ensures forall j: nat :: from <= j && (r.None? || j < r.value) ==> MonthWordAt(text, j).None?
    decreases |text| - from
  {
    if from + 2 > |text| then None
    else if MonthWordAt(text, from).Some? then Some(from)
    else FirstMonthWord(text, from + 1)
  }

  /** The month a spoken month stands for: only October to December, of 2025. */
  function MonthOfNumber(n: nat): Option<string> {
    if n == 10 then Some("202510")
    else if n == 11 then Some("202511")
    else if n == 12 then Some("202512")
    else None
  }

  /** `extractMonthFromText`. */
  function ExtractMonth(text: string): (r: Option<string>)
    ensures r.Some? ==> |r.value| == 6 && r.value[0] == '2' && r.value[1] == '0' && AllDigits(r.value)
  {
    match FirstYearMonth(text, 0)
    case Some(i) => Some(text[i..i + 6])
    case None =>
      match FirstMonthWord(text, 0)
      case Some(k) => MonthOfNumber(MonthWordAt(text, k).value)
      case None => None
  }

  /** The leftmost six-digit month starting "20" wins. */
  lemma ExtractMonthExplicit(text: string, i: nat)
    requires YearMonthAt(text, i)
    requires forall j: nat :: j < i ==> !YearMonthAt(text, j)
    ensures ExtractMonth(text) == Some(text[i..i + 6])
  {
  }

  /** Without such a month, the leftmost "N月" decides, and only 10, 11 and 12 give a month. */
  lemma ExtractMonthWord(text: string, k: nat)
    requires forall j: nat :: !YearMonthAt(text, j)
    requires MonthWordAt(text, k).Some?
    requires forall j: nat :: j < k ==> MonthWordAt(text, j).None?
    ensures ExtractMonth(text) == MonthOfNumber(MonthWordAt(text, k).value)
  {
    assert FirstYearMonth(text, 0).None?;
    assert FirstMonthWord(text, 0) == Some(k);
  }

  /** Neither form: no month. */
  lemma ExtractMonthAbsent(text: string)
    requires forall j: nat :: !YearMonthAt(text, j) && MonthWordAt(text, j).None?
    ensures ExtractMonth(text).None?
  {
    assert FirstYearMonth(text, 0).None?;
  }

  /** The months a spoken month can give are exactly the catalog's three examples. */
  lemma MonthWordsAreExamples()
    ensures forall n :: MonthOfNumber(n).Some? ==> MonthOfNumber(n).value in LegacyConfig.Legacy.timeExamples
    ensures forall e :: e in LegacyConfig.Legacy.timeExamples ==> exists n :: MonthOfNumber(n) == Some(e)
  {
    assert MonthOfNumber(10) == Some("202510");
    assert MonthOfNumber(11) == Some("202511");
    assert MonthOfNumber(12) == Some("202512");
  }

  // ---------------------------------------------------------------- extractFiltersFromText

  datatype Filters = Filters(dimension: string, values: seq<string>)

  const ProductTokens: seq<string> := ["ct", "sps", "es"]
  const OrgTokens: seq<string> := ["psm", "非psm"]

  /** The tokens the text contains, in the order the tokens are listed. */
  function Mentioned(text: string, tokens: seq<string>): (r: seq<string>)
    ensures forall t :: t in r <==> t in tokens && Contains(text, t)
    ensures r == [] <==> forall t :: t in tokens ==> !Contains(text, t)
    ensures |r| <= |tokens|
  {
    if tokens == [] then []
    else (if Contains(text, tokens[0]) then [tokens[0]] else []) + Mentioned(text, tokens[1..])
  }

  /** What `extractFiltersFromText` returns: the products the text names, or else its
      organisations, or else nothing. */
  function FiltersOf(text: string): Option<Filters> {
    var products := Mentioned(text, ProductTokens);
    var orgs := Mentioned(text, OrgTokens);
    if products != [] then Some(Filters(State.DimProduct, products))
    else if orgs != [] then Some(Filters(State.DimOrg, orgs))
    else None
  }

  /** The products named, in the order ct, sps, es. */
  lemma ProductsMentioned(text: string)
    ensures Mentioned(text, ProductTokens)
            == (if Contains(text, "ct") then ["ct"] else []) + (if Contains(text, "sps") then ["sps"] else [])
               + (if Contains(text, "es") then ["es"] else [])
  {
    var rest := ProductTokens[1..];
    assert rest == ["sps", "es"] && rest[1..] == ["es"] && rest[1..][1..] == [];
    assert Mentioned(text, rest[1..]) == (if Contains(text, "es") then ["es"] else []) + Mentioned(text, []);
  }

  /** The organisations named, in the order psm, 非psm. */
  lemma OrgsMentioned(text: string)
    ensures Mentioned(text, OrgTokens)
            == (if Contains(text, "psm") then ["psm"] else []) + (if Contains(text, "非psm") then ["非psm"] else [])
  {
    var rest := OrgTokens[1..];
    assert rest == ["非psm"] && rest[1..] == [];
    assert Mentioned(text, rest) == (if Contains(text, "非psm") then ["非psm"] else []) + Mentioned(text, []);
  }

  /** `extractFiltersFromText`. */
  method ExtractFilters(text: string) returns (r: Option<Filters>)
    ensures r == FiltersOf(text)
  {
    var products := [];
    if Contains(text, "ct") {
      products := products + ["ct"];
    }
    assert products == (if Contains(text, "ct") then ["ct"] else []);
    ghost var ct := products;
    if Contains(text, "sps") {
      products := products + ["sps"];
    }
    assert products == ct + (if Contains(text, "sps") then ["sps"] else []);
    ghost var sps := products;
    if Contains(text, "es") {
      products := products + ["es"];
    }
    assert products == sps + (if Contains(text, "es") then ["es"] else []);
    var orgs := [];
    if Contains(text, "psm") {
      orgs := orgs + ["psm"];
    }
    assert orgs == (if Contains(text, "psm") then ["psm"] else []);
    ghost var psm := orgs;
    if Contains(text, "非psm") {
      orgs := orgs + ["非psm"];
    }
    assert orgs == psm + (if Contains(text, "非psm") then ["非psm"] else []);
    ProductsMentioned(text);
    OrgsMentioned(text);
    assert products == Mentioned(text, ProductTokens);
    assert orgs == Mentioned(text, OrgTokens);
    if |products| > 0 {
      return Some(Filters(State.DimProduct, products));
    }
    if |orgs| > 0 {
      return Some(Filters(State.DimOrg, orgs));
    }
    return None;
  }

  /** Products take precedence: a text naming any product filters by the products it
      names; otherwise by the organisations it names; a result always names something. */
  lemma FiltersPrecedence(text: string)
    ensures var r := FiltersOf(text);
            && ((exists t :: t in ProductTokens && Contains(text, t)) ==>
                  r.Some? && r.value.dimension == State.DimProduct
                  && forall t :: t in r.value.values <==> t in ProductTokens && Contains(text, t))
            && ((forall t :: t in ProductTokens ==> !Contains(text, t)) && (exists t :: t in OrgTokens && Contains(text, t)) ==>
                  r.Some? && r.value.dimension == State.DimOrg
                  && forall t :: t in r.value.values <==> t in OrgTokens && Contains(text, t))
            && (r.Some? ==> r.value.values != [])
  {
    if exists t :: t in ProductTokens && Contains(text, t) {
      var t :| t in ProductTokens && Contains(text, t);
      assert t in Mentioned(text, ProductTokens);
    } else if exists t :: t in OrgTokens && Contains(text, t) {
      var t :| t in OrgTokens && Contains(text, t);
      assert t in Mentioned(text, OrgTokens);
    }
  }

  /** A text containing `b` after something contains `b`. */
  lemma ContainsTail(s: string, a: string, b: string)
    requires Contains(s, a + b)
    ensures Contains(s, b)
  {
    ContainsIff(s, a + b);
    var j :| OccursAt(s, a + b, j);
    assert s[j + |a|..j + |a| + |b|] == (a + b)[|a|..];
    assert OccursAt(s, b, j + |a|);
    ContainsIff(s, b);
  }

  /** "非psm" contains "psm": a text naming only the former, and no product, filters by both
      organisations. */
  lemma NonPsmNamesBoth(text: string)
    requires Contains(text, "非psm")
    requires forall t :: t in ProductTokens ==> !Contains(text, t)
    ensures FiltersOf(text) == Some(Filters(State.DimOrg, ["psm", "非psm"]))
  {
    assert "非psm" == "非" + "psm";
    ContainsTail(text, "非", "psm");
    OrgsMentioned(text);
    assert Mentioned(text, OrgTokens) == ["psm", "非psm"];
    assert Mentioned(text, ProductTokens) == [];
  }

  // ---------------------------------------------------------------- parseIntentFromText

  /** The metric the keyword rules pick: "工程师" with "数量" gives a count, by product on
      "按产品" and by organisation on "按组织" or "按org"; "工程师" with "明细" gives the
      listing. */
  function KeywordMetric(t: string): Option<string> {
    if Contains(t, "工程师") && Contains(t, "数量") then
      Some(if Contains(t, "按产品") then "engineer_count_by_product"
           else if Contains(t, "按组织") || Contains(t, "按org") then "engineer_count_by_org"
           else "engineer_count")
    else if Contains(t, "工程师") && Contains(t, "明细") then Some("engineer_detail")
    else None
  }

  /** A recognised month as the range `{ type: "month", value, label: value }`. */
  function MonthRangeOf(m: Option<string>): Option<State.TimeRange> {
    if m.Some? then Some(State.MonthRange(m.value)) else None
  }

  /** `parseIntentFromText` as written: a keyword rule dereferences the filter result even
      when the text names no filter, which throws. */
  function ParseIntentAsWritten(text: string, classifier: Option<Intent>): Result<Option<Intent>> {
    var t := Trim(text);
    if t == [] then Success(None)
    else match KeywordMetric(t)
      case None => Success(classifier)
      case Some(id) =>
        match FiltersOf(t)
        case None => Failure("TypeError: cannot read filterDimension of null")
        case Some(f) => Success(Some(Intent("personnel", id, "", MonthRangeOf(ExtractMonth(t)), f.dimension, f.values)))
  }

  /** `parseIntentFromText` as intended: a text that names no filter leaves the filter
      dimension unset. */
  function ParseIntent(text: string, classifier: Option<Intent>): Option<Intent> {
    var t := Trim(text);
    if t == [] then None
    else match KeywordMetric(t)
      case None => classifier
      case Some(id) =>
        var f := FiltersOf(t).GetOr(Filters("", []));
        Some(Intent("personnel", id, "", MonthRangeOf(ExtractMonth(t)), f.dimension, f.values))
  }

  /** The keyword rules decide before the classifier, which is only asked when neither
      fires; blank text yields nothing. */
  lemma KeywordRules(text: string, classifier: Option<Intent>)
    ensures var t, r := Trim(text), ParseIntent(text, classifier);
            && (t == [] ==> r.None?)
            && (t != [] && KeywordMetric(t).None? ==> r == classifier)
            && (t != [] && KeywordMetric(t).Some? ==>
                  r.Some? && r.value.categoryId == "personnel" && r.value.metricId == KeywordMetric(t).value
                  && r.value.timeRange == MonthRangeOf(ExtractMonth(t)))
  {
  }

  /** Which metric each rule picks, the count rules taking precedence over the listing. */
  lemma KeywordMetricChoice(t: string)
    ensures (Contains(t, "工程师") && Contains(t, "数量") && Contains(t, "按产品"))
              ==> KeywordMetric(t) == Some("engineer_count_by_product")
    ensures (Contains(t, "工程师") && Contains(t, "数量") && !Contains(t, "按产品") && (Contains(t, "按组织") || Contains(t, "按org")))
              ==> KeywordMetric(t) == Some("engineer_count_by_org")
    ensures (Contains(t, "工程师") && !Contains(t, "数量") && Contains(t, "明细"))
              ==> KeywordMetric(t) == Some("engineer_detail")
    ensures KeywordMetric(t).Some? <==> Contains(t, "工程师") && (Contains(t, "数量") || Contains(t, "明细"))
  {
  }

  /** As written, a keyword text that names no filter throws; the corrected parse keeps
      the metric and month and leaves the dimension unset. Wherever the written parse
      succeeds, the two agree. */
  lemma ParseIntentCorrected(text: string, classifier: Option<Intent>)
    ensures var t := Trim(text);
            (ParseIntentAsWritten(text, classifier).Failure? <==> (t != [] && KeywordMetric(t).Some? && FiltersOf(t).None?))
    ensures ParseIntentAsWritten(text, classifier).Success? ==>
              ParseIntentAsWritten(text, classifier).value == ParseIntent(text, classifier)
    ensures ParseIntentAsWritten(text, classifier).Failure? ==>
              var r := ParseIntent(text, classifier);
              r.Some? && r.value.filterDimension == "" && r.value.filterValues == []
  {
  }

  /** The input the first server itself suggests when a category is not recognised. */
  const SuggestedInput := "202510工程师数量"

  /** A text lacking the first character of every product and organisation token
      names no filter. */
  lemma NoFilterNamed(text: string)
    requires 'c' !in text && 's' !in text && 'e' !in text && 'p' !in text && '非' !in text
    ensures FiltersOf(text).None?
  {
    MissingHead(text, "ct");
    MissingHead(text, "sps");
    MissingHead(text, "es");
    MissingHead(text, "psm");
    MissingHead(text, "非psm");
    ProductsMentioned(text);
    OrgsMentioned(text);
  }

  /** A count request that opens with a month and names no filter: the written parse
      throws and the corrected one reads the count of that month with no dimension. */
  lemma MonthCountWithoutFilter(text: string, i: nat, j: nat, classifier: Option<Intent>)
    requires text != [] && !IsSpace(text[0]) && !IsSpace(text[|text| - 1])
    requires OccursAt(text, "工程师", i) && OccursAt(text, "数量", j)
    requires '按' !in text
    requires 'c' !in text && 's' !in text && 'e' !in text && 'p' !in text && '非' !in text
    requires YearMonthAt(text, 0)
    ensures ParseIntentAsWritten(text, classifier).Failure?
    ensures ParseIntent(text, classifier)
            == Some(Intent("personnel", "engineer_count", "", Some(State.MonthRange(text[..6])), "", []))
  {
    TrimUnpadded(text);
    ContainsIff(text, "工程师");
    ContainsIff(text, "数量");
    MissingHead(text, "按产品");
    MissingHead(text, "按组织");
    MissingHead(text, "按org");
    assert KeywordMetric(text) == Some("engineer_count");
    NoFilterNamed(text);
    ExtractMonthExplicit(text, 0);
  }

  /** The suggested input crashes the written parse, and the corrected parse reads it as
      the engineer count of October 2025 with no filter yet. */
  lemma SuggestedInputCrashes(classifier: Option<Intent>)
    ensures ParseIntentAsWritten(SuggestedInput, classifier).Failure?
    ensures ParseIntent(SuggestedInput, classifier)
            == Some(Intent("personnel", "engineer_count", "", Some(State.MonthRange("202510")), "", []))
  {
    SuggestedInputShape();
    MonthCountWithoutFilter(SuggestedInput, 6, 9, classifier);
  }

  lemma SuggestedInputShape()
    ensures YearMonthAt(SuggestedInput, 0) && SuggestedInput[..6] == "202510"
    ensures OccursAt(SuggestedInput, "工程师", 6) && OccursAt(SuggestedInput, "数量", 9)
  {
    assert SuggestedInput[2..6] == "2510";
    assert SuggestedInput[6..9] == "工程师";
    assert SuggestedInput[9..11] == "数量";
  }

  // ---------------------------------------------------------------- processIntentAndGetReply

  /** The state after `processIntentAndGetReply`: the intent's slots written in (no
      dimension meaning NONE with no values), then the time step if there is no time
      range, the dimension step if there is no dimension, else the summary. */
  function Processed(c: Conv, i: Intent): Conv {
    var dimension := if i.filterDimension != "" then i.filterDimension else State.DimNone;
    var values := if i.filterDimension != "" then i.filterValues else [];
    var stage := if i.timeRange.None? then TimeRangeSelect
                 else if i.filterDimension == "" then FilterDimensionSelect
                 else SummaryConfirm;
    Conv(stage, i.categoryId, i.metricId, i.detailId, i.timeRange, dimension, values, c.lastQueryResult)
  }

  /** Every slot comes from the intent and only the last result survives; the stage is the
      first step the intent leaves open. */
  lemma ProcessedStage(c: Conv, i: Intent)
    ensures var r := Processed(c, i);
            && r.lastQueryResult == c.lastQueryResult
            && r.categoryId == i.categoryId && r.metricId == i.metricId && r.timeRange == i.timeRange
            && (r.stage == TimeRangeSelect <==> i.timeRange.None?)
            && (r.stage == FilterDimensionSelect <==> i.timeRange.Some? && i.filterDimension == "")
            && (r.stage == SummaryConfirm <==> i.timeRange.Some? && i.filterDimension != "")
            && (i.filterDimension == "" ==> r.filterDimension == State.DimNone && r.filterValues == [])
            && (i.filterDimension != "" ==> r.filterDimension == i.filterDimension && r.filterValues == i.filterValues)
  {
  }

  // ---------------------------------------------------------------- runQueryForState

  /** A WHERE clause and its parameters, in the order of their marks. */
  datatype Clause = Clause(text: string, params: seq<State.Value>)

  const MonthCondition := " AND update_month = " + "?"

  /** The month predicate is added only for a range with a (truthy) value. */
  predicate MonthFiltered(c: Conv) {
    c.timeRange.Some? && c.timeRange.value.value != ""
  }

  /** The filter predicate is added for a chosen dimension, other than NONE, with values,
      that the catalog declares. */
  predicate FilterApplies(cfg: Config, c: Conv) {
    c.filterDimension != "" && c.filterDimension != State.DimNone && |c.filterValues| > 0
    && FindDimension(cfg.filterDimensions, c.filterDimension).Some?
  }

  /** `values.map(() => "?").join(",")`. */
  function Marks(n: nat): string {
    if n == 0 then "" else if n == 1 then "?" else "?," + Marks(n - 1)
  }

  lemma {:induction false} MarksCount(n: nat)
    ensures CountChar(Marks(n), '?') == n
  {
    if n > 1 {
      MarksCount(n - 1);
      CountCharAppend("?,", Marks(n - 1), '?');
    }
  }

  function Strs(vs: seq<string>): (r: seq<State.Value>)
    ensures |r| == |vs| && forall k :: 0 <= k < |vs| ==> r[k] == State.Str(vs[k])
  {
    seq(|vs|, k requires 0 <= k < |vs| => State.Str(vs[k]))
  }

  /** The filter predicate for a column and `n` values. */
  function FilterCondition(column: string, n: nat): string {
    " AND " + column + " IN (" + Marks(n) + ")"
  }

  lemma FilterConditionMarks(column: string, n: nat)
    requires '?' !in column
    ensures CountChar(FilterCondition(column, n), '?') == n
  {
    CountCharAbsent(" AND ", '?');
    CountCharAbsent(column, '?');
    CountCharAbsent(" IN (", '?');
    CountCharAbsent(")", '?');
    MarksCount(n);
    CountCharAppend(" AND ", column, '?');
    CountCharAppend(" AND " + column, " IN (", '?');
    CountCharAppend(" AND " + column + " IN (", Marks(n), '?');
    CountCharAppend(" AND " + column + " IN (" + Marks(n), ")", '?');
  }

  /** Two mark-free pieces and a mark hold one mark. */
  lemma OneMark(a: string, b: string, m: string)
    requires '?' !in a && '?' !in b && m == "?"
    ensures CountChar(a + (b + m), '?') == 1
  {
    CountCharAbsent(a, '?');
    CountCharAbsent(b, '?');
    CountCharAppend(b, m, '?');
    CountCharAppend(a, b + m, '?');
  }

  lemma HeadMarks(monthOn: bool)
    ensures CountChar("WHERE 1=1" + (if monthOn then MonthCondition else ""), '?') == if monthOn then 1 else 0
  {
    if monthOn {
      OneMark("WHERE 1=1", " AND update_month = ", "?");
    } else {
      assert "WHERE 1=1" + "" == "WHERE 1=1";
      CountCharAbsent("WHERE 1=1", '?');
    }
  }

  /** The WHERE clause `runQueryForState` builds for a state. */
  function WhereOf(cfg: Config, c: Conv): Clause {
    var text := "WHERE 1=1" + (if MonthFiltered(c) then MonthCondition else "");
    var params := if MonthFiltered(c) then [State.Str(c.timeRange.value.value)] else [];
    if FilterApplies(cfg, c) then
      var d := FindDimension(cfg.filterDimensions, c.filterDimension).value;
      Clause(text + FilterCondition(d.column, |c.filterValues|), params + Strs(c.filterValues))
    else Clause(text, params)
  }

  /** One mark per parameter: the month's, then one per filter value. */
  lemma WhereMarks(cfg: Config, c: Conv)
    requires forall d :: d in cfg.filterDimensions ==> '?' !in d.column
    ensures var w := WhereOf(cfg, c);
            && CountChar(w.text, '?') == |w.params|
            && |w.params| == (if MonthFiltered(c) then 1 else 0) + (if FilterApplies(cfg, c) then |c.filterValues| else 0)
            && (MonthFiltered(c) ==> w.params[0] == State.Str(c.timeRange.value.value))
  {
    var head := "WHERE 1=1" + (if MonthFiltered(c) then MonthCondition else "");
    HeadMarks(MonthFiltered(c));
    if FilterApplies(cfg, c) {
      var d := FindDimension(cfg.filterDimensions, c.filterDimension).value;
      FilterConditionMarks(d.column, |c.filterValues|);
      CountCharAppend(head, FilterCondition(d.column, |c.filterValues|), '?');
    }
  }

  /** `runQueryForState`'s clause builder. */
  method BuildWhere(cfg: Config, c: Conv) returns (w: Clause)
    ensures w == WhereOf(cfg, c)
  {
    var params := [];
    var text := "WHERE 1=1";
    if c.timeRange.Some? && c.timeRange.value.value != "" {
      text := text + MonthCondition;
      params := params + [State.Str(c.timeRange.value.value)];
    }
    if c.filterDimension != "" && c.filterDimension != State.DimNone && |c.filterValues| > 0 {
      var dim := FindDimension(cfg.filterDimensions, c.filterDimension);
      if dim.Some? {
        text := text + FilterCondition(dim.value.column, |c.filterValues|);
        var start := params;
        for k := 0 to |c.filterValues|
          invariant params == start + Strs(c.filterValues[..k])
        {
          params := params + [State.Str(c.filterValues[k])];
        }
        assert c.filterValues[..|c.filterValues|] == c.filterValues;
      }
    }
    w := Clause(text, params);
  }

  const Table := " FROM personnel_detail "

  /** The statement `runQueryForState` sends: none without a metric of the catalog, and
      none for a grouping metric it has no statement for. */
  function StatementOf(cfg: Config, c: Conv): Option<Clause> {
    match FindMetric(cfg, c.categoryId, c.metricId)
    case None => None
    case Some(m) =>
      var w := WhereOf(cfg, c);
      if m.kind == Aggregate then
        Some(Clause("SELECT COUNT(*) AS value" + Table + w.text, w.params))
      else if m.kind == AggregateGroup && m.id == "engineer_count_by_product" then
        Some(Clause("SELECT product, COUNT(*) AS value" + Table + w.text + " GROUP BY product", w.params))
      else if m.kind == AggregateGroup && m.id == "engineer_count_by_org" then
        Some(Clause("SELECT org, COUNT(*) AS value" + Table + w.text + " GROUP BY org", w.params))
      else if m.kind == Detail then
        Some(Clause("SELECT employee_id, update_month," + " product, org" + Table + w.text
                    + " ORDER BY employee_id LIMIT 50", w.params))
      else None
  }

  /** Every metric of the first catalog has a statement once it is chosen. */
  lemma LegacyMetricsHaveStatements(c: Conv)
    requires FindMetric(LegacyConfig.Legacy, c.categoryId, c.metricId).Some?
    ensures StatementOf(LegacyConfig.Legacy, c).Some?
  {
    LegacyConfig.LegacyMetrics();
    var m := FindMetric(LegacyConfig.Legacy, c.categoryId, c.metricId).value;
    assert m in LegacyConfig.Personnel1.metrics;
  }

  /** The state after "confirm_start": the rows recorded and shown (none without a
      statement); when the database fails, back to the summary. */
  function Executed(cfg: Config, c: Conv, a: State.Answer): Conv {
    var q := StatementOf(cfg, c);
    if q.Some? && a.Failed? then c.(stage := SummaryConfirm)
    else c.(stage := ShowResult, lastQueryResult := if q.Some? then Some(State.RowsOf(a)) else None)
  }

  // ---------------------------------------------------------------- handleButtonInput

  /** A button payload, by its `type`. */
  datatype Payload =
    | KpiCategory(id: string)
    | KpiMetric(id: string)
    | TimeRangeChoice(value: string)
    | FilterDimensionChoice(value: string)
    | ConfirmFilterValues(values: seq<string>)
    | FilterValueChoice(value: string)
    | ConfirmStart
    | Modify
    | NewQuery
    | ViewDetail
    | Chart
    | DownloadDetail
    | OtherPayload

  /** The state after `handleButtonInput`. */
  function Button(c: Conv, p: Payload): Conv {
    match p
    case KpiCategory(id) =>
      if c.stage == KpiCategorySelect then c.(categoryId := id, stage := KpiMetricSelect) else c
    case KpiMetric(id) =>
      if c.stage == KpiMetricSelect then c.(metricId := id, stage := TimeRangeSelect) else c
    case TimeRangeChoice(v) =>
      if c.stage == TimeRangeSelect then c.(timeRange := Some(State.MonthRange(v)), stage := FilterDimensionSelect) else c
    case FilterDimensionChoice(v) =>
      if c.stage != FilterDimensionSelect then c
      else if v == State.DimNone then c.(filterDimension := v, filterValues := [], stage := SummaryConfirm)
      else c.(filterDimension := v, stage := FilterValueSelect)
    case ConfirmFilterValues(vs) =>
      if c.stage == FilterValueSelect then c.(filterValues := vs, stage := SummaryConfirm) else c
    case FilterValueChoice(v) =>
      if c.stage == FilterValueSelect
      then c.(filterValues := if v in c.filterValues then c.filterValues else c.filterValues + [v],
              stage := SummaryConfirm)
      else c
    case Modify =>
      if c.stage == SummaryConfirm then EmptyConv else c
    case NewQuery =>
      if c.stage == ShowResult then EmptyConv else c
    case _ => c
  }

  /** The buttons walk the steps in order: category, metric, time range (a month labelled
      by its value), dimension; NONE skips the values and clears them. */
  lemma ButtonProgression(c: Conv, id: string, v: string)
    ensures c.stage == KpiCategorySelect ==> Button(c, KpiCategory(id)) == c.(categoryId := id, stage := KpiMetricSelect)
    ensures c.stage == KpiMetricSelect ==> Button(c, KpiMetric(id)) == c.(metricId := id, stage := TimeRangeSelect)
    ensures c.stage == TimeRangeSelect ==>
              var r := Button(c, TimeRangeChoice(v));
              r.stage == FilterDimensionSelect && r.timeRange == Some(State.TimeRange("month", v, v))
    ensures c.stage == FilterDimensionSelect ==>
              Button(c, FilterDimensionChoice(State.DimNone)) == c.(filterDimension := State.DimNone, filterValues := [], stage := SummaryConfirm)
  {
  }

  /** A chosen value is added once, after the values already chosen. */
  lemma FilterValueAdded(c: Conv, v: string)
    requires c.stage == FilterValueSelect
    ensures var r := Button(c, FilterValueChoice(v));
            r.stage == SummaryConfirm
            && r == c.(stage := r.stage, filterValues := r.filterValues)
            && (forall x :: x in r.filterValues <==> x in c.filterValues || x == v)
            && r.filterValues[..|c.filterValues|] == c.filterValues
            && (Nlu.Distinct(c.filterValues) ==> Nlu.Distinct(r.filterValues))
  {
  }

  /** "modify" at the summary and "new_query" on the result restore `createEmptyState`;
      the result's other buttons change nothing. */
  lemma ButtonResets(c: Conv)
    ensures c.stage == SummaryConfirm ==> Button(c, Modify) == EmptyConv
    ensures c.stage == ShowResult ==> Button(c, NewQuery) == EmptyConv
    ensures Button(c, ViewDetail) == c && Button(c, Chart) == c && Button(c, DownloadDetail) == c
  {
  }

  // ---------------------------------------------------------------- /api/chat

  /** Text typed without a button: a category named by its label or id at the first step;
      at the time step any text, trimmed, as a custom range with no value. */
  function Typed(cfg: Config, c: Conv, message: Option<string>): Conv {
    match c.stage
    case KpiCategorySelect =>
      if message.Some? && FindCategoryByLabel(cfg.categories, message.value).Some?
      then c.(categoryId := FindCategoryByLabel(cfg.categories, message.value).value.id, stage := KpiMetricSelect)
      else c
    case TimeRangeSelect =>
      if message.Some?
      then c.(timeRange := Some(State.TimeRange("custom", "", Trim(message.value))), stage := FilterDimensionSelect)
      else c
    case _ => c
  }

  /** A typed time range carries no value, so the query ignores it: the clause is the one
      without any time range. */
  lemma CustomRangeAddsNoMonth(cfg: Config, c: Conv, message: string)
    requires c.stage == TimeRangeSelect
    ensures var r := Typed(cfg, c, Some(message));
            !MonthFiltered(r) && WhereOf(cfg, r) == WhereOf(cfg, r.(timeRange := None))
  {
  }

  /** The state after one request to `/api/chat`, with its text, its button payload, the
      classifier's answer for the text and the database's answer to the statement the
      request sends. */
  function Chat(cfg: Config, c: Conv, message: Option<string>, payload: Option<Payload>,
                classifier: Option<Intent>, a: State.Answer): Conv
  {
    var typed := message.Some? && Trim(message.value) != [];
    var intent := if typed then ParseIntent(message.value, classifier) else None;
    if intent.Some? then Processed(c, intent.value)
    else if typed && c.stage == KpiCategorySelect then c
    else if payload.None? then Typed(cfg, c, message)
    else if payload.value == ConfirmStart && c.stage == SummaryConfirm then Executed(cfg, c, a)
    else Button(c, payload.value)
  }

  /** The suggested input, at any step and with any button, goes to the dimension step with
      the October 2025 engineer count chosen. */
  lemma SuggestedInputDialog(cfg: Config, c: Conv, payload: Option<Payload>, classifier: Option<Intent>, a: State.Answer)
    ensures var r := Chat(cfg, c, Some(SuggestedInput), payload, classifier, a);
            r.stage == FilterDimensionSelect && r.metricId == "engineer_count"
            && r.timeRange == Some(State.MonthRange("202510")) && r.filterDimension == State.DimNone
  {
    SuggestedInputCrashes(classifier);
  }

  /** Typed text that the rules or the classifier understand wins over any button; text
      they do not understand at the first step changes nothing. */
  lemma ChatTextWins(cfg: Config, c: Conv, message: string, p1: Option<Payload>, p2: Option<Payload>,
                     classifier: Option<Intent>, a: State.Answer)
    requires Trim(message) != []
    ensures ParseIntent(message, classifier).Some? ==>
              Chat(cfg, c, Some(message), p1, classifier, a) == Chat(cfg, c, Some(message), p2, classifier, a)
              == Processed(c, ParseIntent(message, classifier).value)
    ensures ParseIntent(message, classifier).None? && c.stage == KpiCategorySelect ==>
              Chat(cfg, c, Some(message), p1, classifier, a) == c
  {
  }

  // ---------------------------------------------------------------- the state record

  /** The state record of one conversation, updated in place. */
  class Conversation {
    var stage: Stage
    var categoryId: string
    var metricId: string
    var detailId: string
    var timeRange: Option<State.TimeRange>
    var filterDimension: string
    var filterValues: seq<string>
    var lastQueryResult: Option<seq<State.Row>>

    function Snapshot(): Conv
      reads this
    {
      Conv(stage, categoryId, metricId, detailId, timeRange, filterDimension, filterValues, lastQueryResult)
    }

    /** `createEmptyState`. */
    constructor ()
      ensures Snapshot() == EmptyConv
    {
      stage := KpiCategorySelect;
      categoryId, metricId, detailId := "", "", "";
      timeRange := None;
      filterDimension := State.DimNone;
      filterValues := [];
      lastQueryResult := None;
    }

    /** Every field back to its `createEmptyState` value. */
    method Clear()
      modifies this
      ensures Snapshot() == EmptyConv
    {
      stage := KpiCategorySelect;
      categoryId := "";
      metricId := "";
      detailId := "";
      timeRange := None;
      filterDimension := State.DimNone;
      filterValues := [];
      lastQueryResult := None;
    }

    /** `processIntentAndGetReply`. */
    method ProcessIntent(i: Intent)
      modifies this
      ensures Snapshot() == Processed(old(Snapshot()), i)
    {
      categoryId := i.categoryId;
      metricId := i.metricId;
      detailId := i.detailId;
      timeRange := i.timeRange;
      if i.filterDimension != "" {
        filterDimension := i.filterDimension;
        filterValues := i.filterValues;
      } else {
        filterDimension := State.DimNone;
        filterValues := [];
      }
      if timeRange.None? {
        stage := TimeRangeSelect;
        return;
      }
      if i.filterDimension == "" {
        stage := FilterDimensionSelect;
        return;
      }
      stage := SummaryConfirm;
    }

    /** `handleButtonInput`. */
    method HandleButton(p: Payload)
      modifies this
      ensures Snapshot() == Button(old(Snapshot()), p)
    {
      if stage == KpiCategorySelect && p.KpiCategory? {
        categoryId := p.id;
        stage := KpiMetricSelect;
      } else if stage == KpiMetricSelect && p.KpiMetric? {
        metricId := p.id;
        stage := TimeRangeSelect;
      } else if stage == TimeRangeSelect && p.TimeRangeChoice? {
        timeRange := Some(State.TimeRange("month", p.value, p.value));
        stage := FilterDimensionSelect;
      } else if stage == FilterDimensionSelect && p.FilterDimensionChoice? {
        filterDimension := p.value;
        if p.value == State.DimNone {
          filterValues := [];
          stage := SummaryConfirm;
        } else {
          stage := FilterValueSelect;
        }
      } else if stage == FilterValueSelect && p.ConfirmFilterValues? {
        filterValues := p.values;
        stage := SummaryConfirm;
      } else if stage == FilterValueSelect && p.FilterValueChoice? {
        if p.value !in filterValues {
          filterValues := filterValues + [p.value];
        }
        stage := SummaryConfirm;
      } else if stage == SummaryConfirm && p.Modify? {
        Clear();
      } else if stage == ShowResult && p.NewQuery? {
        Clear();
      }
    }

    /** The statement `runQueryForState` sends for the record as it stands. */
    method Statement(cfg: Config) returns (q: Option<Clause>)
      ensures q == StatementOf(cfg, Snapshot())
    {
      var metric := FindMetric(cfg, categoryId, metricId);
      if metric.None? {
        return None;
      }
      var w := BuildWhere(cfg, Snapshot());
      var m := metric.value;
      if m.kind == Aggregate {
        return Some(Clause("SELECT COUNT(*) AS value" + Table + w.text, w.params));
      }
      if m.kind == AggregateGroup && m.id == "engineer_count_by_product" {
        return Some(Clause("SELECT product, COUNT(*) AS value" + Table + w.text + " GROUP BY product", w.params));
      }
      if m.kind == AggregateGroup && m.id == "engineer_count_by_org" {
        return Some(Clause("SELECT org, COUNT(*) AS value" + Table + w.text + " GROUP BY org", w.params));
      }
      if m.kind == Detail {
        return Some(Clause("SELECT employee_id, update_month," + " product, org" + Table + w.text
                           + " ORDER BY employee_id LIMIT 50", w.params));
      }
      return None;
    }

    /** "confirm_start" at the summary, the database answering with `a`. */
    method ExecuteQuery(cfg: Config, a: State.Answer)
      modifies this
      ensures Snapshot() == Executed(cfg, old(Snapshot()), a)
    {
      var q := Statement(cfg);
      stage := ExecutingQuery;
      if q.Some? && a.Failed? {
        stage := SummaryConfirm;
        return;
      }
      lastQueryResult := if q.Some? then Some(State.RowsOf(a)) else None;
      stage := ShowResult;
    }

    /** Text typed without a button. */
    method TypeText(cfg: Config, message: Option<string>)
      modifies this
      ensures Snapshot() == Typed(cfg, old(Snapshot()), message)
    {
      if stage == KpiCategorySelect {
        if message.Some? {
          var category := FindCategoryByLabel(cfg.categories, message.value);
          if category.Some? {
            categoryId := category.value.id;
            stage := KpiMetricSelect;
          }
        }
      } else if stage == TimeRangeSelect {
        if message.Some? {
          timeRange := Some(State.TimeRange("custom", "", Trim(message.value)));
          stage := FilterDimensionSelect;
        }
      }
    }

    /** The `/api/chat` handler on one request. */
    method HandleChat(cfg: Config, message: Option<string>, payload: Option<Payload>,
                      classifier: Option<Intent>, a: State.Answer)
      modifies this
      ensures Snapshot() == Chat(cfg, old(Snapshot()), message, payload, classifier, a)
    {
      if message.Some? && Trim(message.value) != [] {
        var intent := ParseIntent(message.value, classifier);
        if intent.Some? {
          ProcessIntent(intent.value);
          return;
        }
        if stage == KpiCategorySelect {
          return;
        }
      }
      if payload.None? {
        TypeText(cfg, message);
        return;
      }
      if payload.value == ConfirmStart && stage == SummaryConfirm {
        ExecuteQuery(cfg, a);
        return;
      }
      HandleButton(payload.value);
    }
  }
}
