/** The dialogue of server.js: the state record of one conversation and the transitions
    that fill it (`updateStageAndGetReply`, `executeQuery`, `handleButtonInput` and the
    `/api/chat` handler's handling of typed text). Replies, summaries and button lists are
    not modelled; the database's answer and the classifier's answer are inputs. */
module Dialog {
  import opened Wrappers
  import opened Text
  import opened Catalog
  import opened State
  import opened Where
  import opened Query
  import opened Slots
  import opened Display
  import Nlu

  /** A button payload, by its `type`; a field the payload lacks is "". */
  datatype Payload =
    | KpiCategory(id: string)
    | KpiMetric(id: string)
    | TimeType(value: string)
    | TimeValue(timeType: string, value: string, caption: string)
    | FilterDimensionChoice(value: string)
    | ConfirmFilterValues(values: seq<string>)
    | FilterValueChoice(value: string)
    | ConfirmStart
    | Modify
    | NewQuery
    | Chart
    | DownloadDetail
    | OtherPayload

  // ---------------------------------------------------------------- updateStageAndGetReply

  /** `metric && metric.allowedTimeTypes && metric.allowedTimeTypes.length > 0`. */
  predicate HasTimeTypes(cfg: Config, c: Conv) {
    ChosenMetric(cfg, c).Some? && |ChosenMetric(cfg, c).value.allowedTimeTypes| > 0
  }

  /** A filter dimension other than NONE has been chosen. */
  predicate DimensionChosen(c: Conv) {
    c.filterDimension != "" && c.filterDimension != DimNone
  }

  /** The state after `updateStageAndGetReply`: the stage of the first slot still empty,
      and the range "none" for a metric that takes no time. */
  function Staged(cfg: Config, c: Conv): Conv {
    if c.metricId == "" then
      c.(stage := if c.categoryId != "" then KpiMetricSelect else KpiCategorySelect)
    else if c.timeRange.None? && HasTimeTypes(cfg, c) then
      c.(stage := TimeTypeSelect)
    else
      var t := if c.timeRange.None? then c.(timeRange := Some(NoTimeRange)) else c;
      if !DimensionChosen(t) then t.(stage := FilterDimensionSelect)
      else if |t.filterValues| == 0 then t.(stage := FilterValueSelect)
      else t.(stage := SummaryConfirm)
  }

  /** Recomputing the stage twice gives what recomputing it once gives. */
  lemma StagedIdempotent(cfg: Config, c: Conv)
    ensures Staged(cfg, Staged(cfg, c)) == Staged(cfg, c)
  {
    var r := Staged(cfg, c);
    assert ChosenMetric(cfg, r) == ChosenMetric(cfg, c);
  }

  /** Only the stage and the time range change, and the time range only from none to the
      range "none", when a metric with no time types is chosen. */
  lemma StagedKeepsSlots(cfg: Config, c: Conv)
    ensures var r := Staged(cfg, c);
            r == c.(stage := r.stage, timeRange := r.timeRange)
            && (r.timeRange == c.timeRange
                || (c.metricId != "" && c.timeRange.None? && !HasTimeTypes(cfg, c) && r.timeRange == Some(NoTimeRange)))
  {
  }

  /** The stage is the earliest slot still empty: category, metric, time type (only when
      the metric takes time), filter dimension, filter values; with every slot filled, the
      summary. */
  lemma StagedStage(cfg: Config, c: Conv)
    ensures var s := Staged(cfg, c).stage;
            var timed := c.timeRange.Some? || !HasTimeTypes(cfg, c);
            && (s == KpiCategorySelect <==> c.metricId == "" && c.categoryId == "")
            && (s == KpiMetricSelect <==> c.metricId == "" && c.categoryId != "")
            && (s == TimeTypeSelect <==> c.metricId != "" && !timed)
            && (s == FilterDimensionSelect <==> c.metricId != "" && timed && !DimensionChosen(c))
            && (s == FilterValueSelect <==> c.metricId != "" && timed && DimensionChosen(c) && |c.filterValues| == 0)
            && (s == SummaryConfirm <==> c.metricId != "" && timed && DimensionChosen(c) && |c.filterValues| > 0)
  {
  }

  /** The result depends on the slots alone: not on the stage the conversation was in nor
      on the last query, which are carried over. */
  lemma StagedIgnoresStage(cfg: Config, c: Conv, s: Stage, raw: Option<seq<Row>>, sql: string)
    ensures Staged(cfg, c.(stage := s, lastQueryResult := raw, lastQuerySql := sql))
            == Staged(cfg, c).(lastQueryResult := raw, lastQuerySql := sql)
  {
    assert ChosenMetric(cfg, c.(stage := s, lastQueryResult := raw, lastQuerySql := sql)) == ChosenMetric(cfg, c);
  }

  // ---------------------------------------------------------------- executeQuery

  /** The state after `executeQuery`: the result and its SQL recorded and the result
      shown; when the database fails on the statement, back to the summary. */
  function Executed(cfg: Config, c: Conv, a: Answer): Conv {
    if StatementOf(cfg, c).Some? && a.Failed? then c.(stage := SummaryConfirm)
    else
      var o := RunQuery(cfg, c, RowsOf(a));
      c.(stage := ShowResult, lastQueryResult := o.raw, lastQuerySql := o.sql)
  }

  /** Executing never touches a slot. A failure leaves everything but the stage as it was;
      otherwise the result is shown, with the rows kept and the SQL shown recorded. */
  lemma ExecutedOutcome(cfg: Config, c: Conv, a: Answer)
    ensures var r := Executed(cfg, c, a);
            r.(stage := c.stage, lastQueryResult := c.lastQueryResult, lastQuerySql := c.lastQuerySql) == c
            && (StatementOf(cfg, c).Some? && a.Failed? ==> r == c.(stage := SummaryConfirm))
            && (StatementOf(cfg, c).Some? && a.Answered? ==>
                  r.stage == ShowResult && r.lastQueryResult.Some?
                  && r.lastQuerySql == DisplaySql(StatementOf(cfg, c).value.sql, StatementOf(cfg, c).value.params))
            && (StatementOf(cfg, c).None? ==> r.stage == ShowResult && r.lastQueryResult.None? && r.lastQuerySql == "")
  {
  }

  // ---------------------------------------------------------------- handleButtonInput

  /** The state after the chart button: only the `aggregate` path records anything, the
      SQL of its grouped statement when the chart has rows or values to show. */
  function Charted(cfg: Config, c: Conv, a: Answer): Conv {
    match ChosenMetric(cfg, c)
    case None => c
    case Some(m) =>
      if m.kind == AggregateGroup && c.lastQueryResult.Some? then c
      else if m.kind == Aggregate && a.Answered? then
        match ChartSql(cfg, c, m, a.rows)
        case Some(s) => c.(lastQuerySql := s)
        case None => c
      else c
  }

  /** The state after `handleButtonInput`. */
  function Button(cfg: Config, c: Conv, p: Payload, a: Answer): Conv {
    match p
    case KpiCategory(id) =>
      if c.stage == KpiCategorySelect then Staged(cfg, c.(categoryId := id)) else c
    case KpiMetric(id) =>
      if c.stage == KpiMetricSelect then Staged(cfg, c.(metricId := id)) else c
    case TimeType(v) =>
      if c.stage == TimeTypeSelect then c.(timeType := v, stage := TimeValueSelect) else c
    case TimeValue(tt, v, l) =>
      if c.stage == TimeValueSelect || c.stage == TimeTypeSelect
      then Staged(cfg, c.(timeRange := Some(TimeRange(if tt != "" then tt else c.timeType, v, l))))
      else c
    case FilterDimensionChoice(v) =>
      if c.stage != FilterDimensionSelect then c
      else if v == DimNone then Executed(cfg, c.(filterDimension := v, filterValues := []), a)
      else Staged(cfg, c.(filterDimension := v))
    case ConfirmFilterValues(vs) =>
      if c.stage == FilterValueSelect then Executed(cfg, c.(filterValues := vs), a) else c
    case FilterValueChoice(v) =>
      if c.stage == FilterValueSelect
      then c.(filterValues := if v in c.filterValues then c.filterValues else c.filterValues + [v],
              stage := SummaryConfirm)
      else c
    case Modify =>
      if c.stage == SummaryConfirm then EmptyConv else c
    case NewQuery =>
      if c.stage == ShowResult then EmptyConv else c
    case Chart =>
      if c.stage == ShowResult then Charted(cfg, c, a) else c
    case _ => c
  }

  /** The payloads each stage reacts to. */
  predicate Accepts(s: Stage, p: Payload) {
    match p
    case KpiCategory(_) => s == KpiCategorySelect
    case KpiMetric(_) => s == KpiMetricSelect
    case TimeType(_) => s == TimeTypeSelect
    case TimeValue(_, _, _) => s == TimeValueSelect || s == TimeTypeSelect
    case FilterDimensionChoice(_) => s == FilterDimensionSelect
    case ConfirmFilterValues(_) => s == FilterValueSelect
    case FilterValueChoice(_) => s == FilterValueSelect
    case Modify => s == SummaryConfirm
    case NewQuery => s == ShowResult
    case Chart => s == ShowResult
    case _ => false
  }

  /** A payload the stage does not react to changes nothing. */
  lemma ButtonIgnored(cfg: Config, c: Conv, p: Payload, a: Answer)
    requires !Accepts(c.stage, p)
    ensures Button(cfg, c, p, a) == c
  {
  }

  /** "modify" at the summary and "new_query" on the result both start over from the
      empty state. */
  lemma ButtonResets(cfg: Config, c: Conv, a: Answer)
    ensures c.stage == SummaryConfirm ==> Button(cfg, c, Modify, a) == EmptyConv
    ensures c.stage == ShowResult ==> Button(cfg, c, NewQuery, a) == EmptyConv
  {
  }

  /** A chosen filter value is added once: the values become the old ones and the new one,
      without a repeat when there was none before, and the summary follows. */
  lemma FilterValueAdded(cfg: Config, c: Conv, v: string, a: Answer)
    requires c.stage == FilterValueSelect
    ensures var r := Button(cfg, c, FilterValueChoice(v), a);
            r.stage == SummaryConfirm
            && r == c.(stage := r.stage, filterValues := r.filterValues)
            && (forall x :: x in r.filterValues <==> x in c.filterValues || x == v)
            && r.filterValues[..|c.filterValues|] == c.filterValues
            && (Nlu.Distinct(c.filterValues) ==> Nlu.Distinct(r.filterValues))
  {
  }

  /** Choosing no filter dimension clears the values and runs the query at once. */
  lemma NoDimensionExecutes(cfg: Config, c: Conv, a: Answer)
    requires c.stage == FilterDimensionSelect
    ensures Button(cfg, c, FilterDimensionChoice(DimNone), a)
            == Executed(cfg, c.(filterDimension := DimNone, filterValues := []), a)
    ensures Button(cfg, c, FilterDimensionChoice(DimNone), a).stage in {ShowResult, SummaryConfirm}
  {
  }

  /** The chart button changes nothing but the SQL shown, and that only for an
      `aggregate` metric whose grouped statement the database answered. */
  lemma ChartOnlySql(cfg: Config, c: Conv, a: Answer)
    requires c.stage == ShowResult
    ensures var r := Button(cfg, c, Chart, a);
            r == c.(lastQuerySql := r.lastQuerySql)
            && (r.lastQuerySql != c.lastQuerySql ==>
                  ChosenMetric(cfg, c).Some? && ChosenMetric(cfg, c).value.kind == Aggregate && a.Answered?
                  && ChartSql(cfg, c, ChosenMetric(cfg, c).value, a.rows) == Some(r.lastQuerySql))
  {
  }

  // ---------------------------------------------------------------- typed text

  /** The time range the request carries once the handler has normalised it: none without
      a value or a label; the label falls back to the value. */
  function OverrideOf(tr: Option<TimeRange>): Option<TimeRange>
  {
    match tr
    case None => None
    case Some(t) =>
      if t.value == "" && t.caption == "" then None
      else Some(TimeRange(t.kind, t.value, if t.caption != "" then t.caption else t.value))
  }

  /** A normalised range always has a label, its own or else its value, and keeps its type
      and value. */
  lemma OverrideLabelled(tr: Option<TimeRange>)
    ensures OverrideOf(tr).Some? <==> tr.Some? && (tr.value.value != "" || tr.value.caption != "")
    ensures OverrideOf(tr).Some? ==>
              var r := OverrideOf(tr).value;
              r.caption != "" && r.kind == tr.value.kind && r.value == tr.value.value
              && (r.caption == tr.value.caption || (tr.value.caption == "" && r.caption == tr.value.value))
  {
  }

  /** The slots the text named are written into the state, a request time range taking
      the place of the text's, and the stage is recomputed. */
  function WithEntities(cfg: Config, c: Conv, e: Intent, override: Option<TimeRange>): Conv {
    var k := if e.metricId != "" then c.(categoryId := e.categoryId, metricId := e.metricId, detailId := e.detailId) else c;
    var t := if override.Some? then k.(timeRange := override)
             else if e.timeRange.Some? then k.(timeRange := e.timeRange)
             else k;
    var f := if e.filterDimension != "" then t.(filterDimension := e.filterDimension, filterValues := e.filterValues) else t;
    Staged(cfg, f)
  }

  predicate AllDigits(s: string) {
    forall i :: 0 <= i < |s| ==> IsDigit(s[i])
  }

  /** `/^\d{6}$/`. */
  predicate IsMonthLabel(s: string) {
    |s| == 6 && AllDigits(s)
  }

  /** `/^\d{4}H[12]$/`. */
  predicate IsHalfFyLabel(s: string) {
    |s| == 6 && AllDigits(s[..4]) && s[4] == 'H' && (s[5] == '1' || s[5] == '2')
  }

  /** `/^\d{4}$/`. */
  predicate IsFyLabel(s: string) {
    |s| == 4 && AllDigits(s)
  }

  /** A typed time is accepted when it has the form of the chosen time type, or any of
      the three forms when no type was chosen. */
  predicate ValidTimeLabel(timeType: string, s: string) {
    (timeType == "month" && IsMonthLabel(s))
    || (timeType == "half_fy" && IsHalfFyLabel(s))
    || (timeType == "fy" && IsFyLabel(s))
    || (timeType == "" && (IsMonthLabel(s) || IsHalfFyLabel(s) || IsFyLabel(s)))
  }

  /** The three forms, on the examples the reply gives, and a half that does not exist. */
  lemma TimeLabelExamples()
    ensures ValidTimeLabel("month", "202506") && !ValidTimeLabel("fy", "202506")
    ensures ValidTimeLabel("half_fy", "2025H1") && !ValidTimeLabel("month", "2025H1")
    ensures ValidTimeLabel("fy", "2025") && ValidTimeLabel("", "2025")
    ensures !ValidTimeLabel("half_fy", "2025H3") && !ValidTimeLabel("", "2025H3")
  {
    assert "2025H3"[4] == 'H' && "2025H3"[5] == '3';
  }

  /** Text typed without a button: at the category step a category named by its label or
      id is taken; at the time-value step a time of the right form becomes a custom range;
      anything else changes nothing. */
  function Typed(cfg: Config, c: Conv, message: string): Conv {
    match c.stage
    case KpiCategorySelect =>
      (match FindCategoryByLabel(cfg.categories, message)
       case Some(cat) => c.(categoryId := cat.id, stage := KpiMetricSelect)
       case None => c)
    case TimeValueSelect =>
      var written := Trim(message);
      if ValidTimeLabel(c.timeType, written)
      then c.(timeRange := Some(TimeRange("custom", written, written)), stage := FilterDimensionSelect)
      else c
    case _ => c
  }

  /** A typed time is recorded only in the time-value step and only in the form of the
      chosen type, as a custom range labelled and valued by the trimmed text. */
  lemma TypedTimeValidated(cfg: Config, c: Conv, message: string)
    ensures var r := Typed(cfg, c, message);
            r.timeRange != c.timeRange ==>
              c.stage == TimeValueSelect && ValidTimeLabel(c.timeType, Trim(message))
              && r == c.(timeRange := Some(TimeRange("custom", Trim(message), Trim(message))), stage := FilterDimensionSelect)
    ensures c.stage == TimeTypeSelect ==> Typed(cfg, c, message) == c
  {
  }

  /** The state after one request to `/api/chat` with its text `message`, its button
      `payload`, its time range `tr`, the classifier's answer for the text and the
      database's answer to the statement the request sends. */
  function Chat(cfg: Config, c: Conv, message: string, payload: Option<Payload>, tr: Option<TimeRange>,
                classifier: Option<Intent>, a: Answer): Conv
  {
    var override := OverrideOf(tr);
    var typed := Trim(message) != [];
    var entities := if typed then ExtractEntities(cfg, message, classifier) else None;
    if entities.Some? then WithEntities(cfg, c, entities.value, override)
    else if typed && c.stage == KpiCategorySelect && FindCategoryByLabel(cfg.categories, message).None? then c
    else if payload.None? then Typed(cfg, if override.Some? then c.(timeRange := override) else c, message)
    else if payload.value == ConfirmStart && c.stage == SummaryConfirm then Executed(cfg, c, a)
    else Button(cfg, c, payload.value, a)
  }

  /** Writing the named slots leaves a state whose stage is already the recomputed one. */
  lemma WithEntitiesStaged(cfg: Config, c: Conv, e: Intent, override: Option<TimeRange>)
    ensures Staged(cfg, WithEntities(cfg, c, e, override)) == WithEntities(cfg, c, e, override)
  {
    var k := if e.metricId != "" then c.(categoryId := e.categoryId, metricId := e.metricId, detailId := e.detailId) else c;
    var t := if override.Some? then k.(timeRange := override)
             else if e.timeRange.Some? then k.(timeRange := e.timeRange)
             else k;
    var f := if e.filterDimension != "" then t.(filterDimension := e.filterDimension, filterValues := e.filterValues) else t;
    StagedIdempotent(cfg, f);
  }

  /** Text the slot rules or the classifier understand wins over any button: the payload
      is ignored and the stage is already the recomputed one. */
  lemma ChatEntitiesWin(cfg: Config, c: Conv, message: string, p1: Option<Payload>, p2: Option<Payload>,
                        tr: Option<TimeRange>, classifier: Option<Intent>, a: Answer)
    requires Trim(message) != [] && ExtractEntities(cfg, message, classifier).Some?
    ensures Chat(cfg, c, message, p1, tr, classifier, a) == Chat(cfg, c, message, p2, tr, classifier, a)
    ensures var r := Chat(cfg, c, message, p1, tr, classifier, a);
            Staged(cfg, r) == r
  {
    WithEntitiesStaged(cfg, c, ExtractEntities(cfg, message, classifier).value, OverrideOf(tr));
  }

  /** "confirm_start" at the summary runs the query. */
  lemma ChatConfirmExecutes(cfg: Config, c: Conv, tr: Option<TimeRange>, classifier: Option<Intent>, a: Answer)
    requires c.stage == SummaryConfirm
    ensures Chat(cfg, c, "", Some(ConfirmStart), tr, classifier, a) == Executed(cfg, c, a)
  {
    assert Trim("") == [];
  }

  // ---------------------------------------------------------------- the state record

  /** The state record of one conversation, updated in place by the transitions. */
  class Conversation {
    var stage: Stage
    var categoryId: string
    var metricId: string
    var detailId: string
    var timeType: string
    var timeRange: Option<TimeRange>
    var filterDimension: string
    var filterValues: seq<string>
    var lastQueryResult: Option<seq<Row>>
    var lastQuerySql: string

    /** The record as a value. */
    function Snapshot(): Conv
      reads this
    {
      Conv(stage, categoryId, metricId, detailId, timeType, timeRange, filterDimension, filterValues,
           lastQueryResult, lastQuerySql)
    }

    /** `createEmptyState`. */
    constructor ()
      ensures Snapshot() == EmptyConv
    {
      stage := KpiCategorySelect;
      categoryId, metricId, detailId, timeType := "", "", "", "";
      timeRange := None;
      filterDimension := DimNone;
      filterValues := [];
      lastQueryResult := None;
      lastQuerySql := "";
    }

    /** The reset of "modify" and "new_query": every field back to its empty value. */
    method Clear()
      modifies this
      ensures Snapshot() == EmptyConv
    {
      stage := KpiCategorySelect;
      categoryId := "";
      metricId := "";
      detailId := "";
      timeType := "";
      timeRange := None;
      filterDimension := DimNone;
      filterValues := [];
      lastQueryResult := None;
      lastQuerySql := "";
    }

    /** `updateStageAndGetReply`. */
    method UpdateStage(cfg: Config)
      modifies this
      ensures Snapshot() == Staged(cfg, old(Snapshot()))
    {
      var metric := ChosenMetric(cfg, Snapshot());
      if metricId == "" {
        if categoryId != "" {
          stage := KpiMetricSelect;
          return;
        }
        stage := KpiCategorySelect;
        return;
      }
      var hasTimeConfig := metric.Some? && |metric.value.allowedTimeTypes| > 0;
      if timeRange.None? && hasTimeConfig {
        stage := TimeTypeSelect;
        return;
      } else if timeRange.None? && !hasTimeConfig {
        timeRange := Some(NoTimeRange);
      }
      if filterDimension == "" || filterDimension == DimNone {
        stage := FilterDimensionSelect;
        return;
      }
      if filterDimension != DimNone && |filterValues| == 0 {
        stage := FilterValueSelect;
        return;
      }
      stage := SummaryConfirm;
    }

    /** `executeQuery`, the database answering with `a`. */
    method ExecuteQuery(cfg: Config, a: Answer)
      modifies this
      ensures Snapshot() == Executed(cfg, old(Snapshot()), a)
    {
      var before := Snapshot();
      stage := ExecutingQuery;
      if StatementOf(cfg, before).Some? && a.Failed? {
        stage := SummaryConfirm;
        return;
      }
      var outcome := RunQuery(cfg, before, RowsOf(a));
      lastQueryResult := outcome.raw;
      lastQuerySql := outcome.sql;
      stage := ShowResult;
    }

    /** `handleButtonInput`, the database answering with `a` the statement it sends. */
    method HandleButton(cfg: Config, p: Payload, a: Answer)
      modifies this
      ensures Snapshot() == Button(cfg, old(Snapshot()), p, a)
    {
      if p.KpiCategory? || p.KpiMetric? || p.TimeType? || p.TimeValue? {
        SlotButton(cfg, p, a);
      } else if p.FilterDimensionChoice? || p.ConfirmFilterValues? || p.FilterValueChoice? {
        FilterButton(cfg, p, a);
      } else if p.Modify? || p.NewQuery? || p.Chart? {
        ResultButton(cfg, p, a);
      }
    }

    /** The buttons of `handleButtonInput` that fill the category, metric and time slots. */
    method SlotButton(cfg: Config, p: Payload, a: Answer)
      requires p.KpiCategory? || p.KpiMetric? || p.TimeType? || p.TimeValue?
      modifies this
      ensures Snapshot() == Button(cfg, old(Snapshot()), p, a)
    {
      if stage == KpiCategorySelect && p.KpiCategory? {
        categoryId := p.id;
        UpdateStage(cfg);
      } else if stage == KpiMetricSelect && p.KpiMetric? {
        metricId := p.id;
        UpdateStage(cfg);
      } else if stage == TimeTypeSelect && p.TimeType? {
        timeType := p.value;
        stage := TimeValueSelect;
      } else if (stage == TimeValueSelect || stage == TimeTypeSelect) && p.TimeValue? {
        timeRange := Some(TimeRange(if p.timeType != "" then p.timeType else timeType, p.value, p.caption));
        UpdateStage(cfg);
      }
    }

    /** The buttons of `handleButtonInput` that choose the filter. */
    method FilterButton(cfg: Config, p: Payload, a: Answer)
      requires p.FilterDimensionChoice? || p.ConfirmFilterValues? || p.FilterValueChoice?
      modifies this
      ensures Snapshot() == Button(cfg, old(Snapshot()), p, a)
    {
      if stage == FilterDimensionSelect && p.FilterDimensionChoice? {
        filterDimension := p.value;
        if p.value == DimNone {
          filterValues := [];
          ExecuteQuery(cfg, a);
        } else {
          UpdateStage(cfg);
        }
      } else if stage == FilterValueSelect && p.ConfirmFilterValues? {
        filterValues := p.values;
        ExecuteQuery(cfg, a);
      } else if stage == FilterValueSelect && p.FilterValueChoice? {
        if p.value !in filterValues {
          filterValues := filterValues + [p.value];
        }
        stage := SummaryConfirm;
      }
    }

    /** The buttons of `handleButtonInput` offered with the summary and with the result. */
    method ResultButton(cfg: Config, p: Payload, a: Answer)
      requires p.Modify? || p.NewQuery? || p.Chart?
      modifies this
      ensures Snapshot() == Button(cfg, old(Snapshot()), p, a)
    {
      if stage == SummaryConfirm && p.Modify? {
        Clear();
      } else if stage == ShowResult && p.NewQuery? {
        Clear();
      } else if stage == ShowResult && p.Chart? {
        ChartButton(cfg, a);
      }
    }

    /** The chart button of `handleButtonInput`. */
    method ChartButton(cfg: Config, a: Answer)
      modifies this
      ensures Snapshot() == Charted(cfg, old(Snapshot()), a)
    {
      var metric := ChosenMetric(cfg, Snapshot());
      if metric.Some? && metric.value.kind == AggregateGroup && lastQueryResult.Some? {
        return;
      }
      if metric.Some? && metric.value.kind == Aggregate && a.Answered? {
        var shown := ChartSql(cfg, Snapshot(), metric.value, a.rows);
        if shown.Some? {
          lastQuerySql := shown.value;
        }
      }
    }

    /** The `/api/chat` handler on one request, given the classifier's answer for its text
        and the database's answer to the statement it sends. */
    method HandleChat(cfg: Config, message: string, payload: Option<Payload>, tr: Option<TimeRange>,
                      classifier: Option<Intent>, a: Answer)
      modifies this
      ensures Snapshot() == Chat(cfg, old(Snapshot()), message, payload, tr, classifier, a)
    {
      var overrideRange := OverrideOf(tr);
      var typed := Trim(message) != [];
      var entities := None;
      if typed {
        entities := ExtractEntities(cfg, message, classifier);
      }
      if entities.Some? {
        ApplyEntities(cfg, entities.value, overrideRange);
        return;
      }
      if typed && stage == KpiCategorySelect && FindCategoryByLabel(cfg.categories, message).None? {
        return;
      }
      if payload.None? {
        if overrideRange.Some? {
          timeRange := overrideRange;
        }
        TypeText(cfg, message);
        return;
      }
      if payload.value == ConfirmStart && stage == SummaryConfirm {
        ExecuteQuery(cfg, a);
        return;
      }
      HandleButton(cfg, payload.value, a);
    }

    /** The slots the text named written into the state, then `updateStageAndGetReply`. */
    method ApplyEntities(cfg: Config, e: Intent, overrideRange: Option<TimeRange>)
      modifies this
      ensures Snapshot() == WithEntities(cfg, old(Snapshot()), e, overrideRange)
    {
      if e.metricId != "" {
        categoryId := e.categoryId;
        metricId := e.metricId;
        detailId := e.detailId;
      }
      if overrideRange.Some? {
        timeRange := overrideRange;
      } else if e.timeRange.Some? {
        timeRange := e.timeRange;
      }
      if e.filterDimension != "" {
        filterDimension := e.filterDimension;
        filterValues := e.filterValues;
      }
      UpdateStage(cfg);
    }

    /** Text typed without a button, at the category and the time-value steps. */
    method TypeText(cfg: Config, message: string)
      modifies this
      ensures Snapshot() == Typed(cfg, old(Snapshot()), message)
    {
      if stage == KpiCategorySelect {
        var category := FindCategoryByLabel(cfg.categories, message);
        if category.Some? {
          categoryId := category.value.id;
          stage := KpiMetricSelect;
        }
      } else if stage == TimeValueSelect {
        var written := Trim(message);
        var isMonth := IsMonthLabel(written);
        var isHalfFy := IsHalfFyLabel(written);
        var isFy := IsFyLabel(written);
        var isValid := false;
        if timeType == "month" && isMonth {
          isValid := true;
        }
        if timeType == "half_fy" && isHalfFy {
          isValid := true;
        }
        if timeType == "fy" && isFy {
          isValid := true;
        }
        if timeType == "" && (isMonth || isHalfFy || isFy) {
          isValid := true;
        }
        if isValid {
          timeRange := Some(TimeRange("custom", written, written));
          stage := FilterDimensionSelect;
        }
      }
    }
  }
}
