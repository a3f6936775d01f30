# KPI chatbot dialogue, modelled in Dafny

This project models the core of a KPI chatbot. A user picks, or types, a KPI
category and metric, a time range and a filter (a dimension such as product or
organisation, and its values). The server then compiles a parameterised SQL
statement from a declarative metric catalog, shows that statement with its
parameters written in, and offers follow-up buttons such as a chart and a new query.

The model covers:

- **The catalogs.** `config/metrics.js` and the first version's
  `version_1/config/metrics.js`, as constants (`MetricsConfig`, `LegacyConfig`). Their
  datatypes and `find` lookups live in `Catalog`. Their well-formedness facts are lemmas.
- **Slot extraction.**
  - `Nlu`, from `lib/nlu.js`: loose normalisation, whole-token ASCII matching,
    canonicalisation of filter values, and product and organisation detection.
  - `Slots`, from `server.js`: month extraction, keyword-conjunction metric matching in
    catalog order, and the merge with the classifier's optional answer.
- **The dialogue** (`Dialog`). The state record of one conversation is a class with one
  method per transition: `updateStageAndGetReply`, `executeQuery`, `handleButtonInput`
  and the `/api/chat` handler. Each method is proved against a function on the record's
  value, and the lemmas about that function state what the dialogue promises.
- **The query compiler.**
  - `Where`: `buildWhere`.
  - `Query`: `runQueryForState`, with the grouped-row reconciliation, and the chart path's
    grouped statement.
  - `Patterns`: the three rewriting regular expressions, matched by hand.
  - `Display`: `formatSqlForDisplay` and `stripWhereStubForDisplay`.
- **Time options** (`TimeOptions`): the month, half-year and fiscal-year choices
  `getTimeOptions` computes from the months the roster table holds.
- **The first version** (`Legacy`), from `version_1/server.js`: its text parse, its
  dialogue and its statements.

`Wrappers` and `Text` hold the JavaScript behaviour the rest relies on: null as
`Option`, and the string operations `includes`, `indexOf`, `split`, `trim`, `replace`,
`String(n)` and `parseInt`. `State` holds the values a conversation is made of.

Three things the server gets from outside are parameters of the model:

- the rows the database answers with, or its failure (`State.Answer`);
- the classifier's answer for a text (an optional intent, already post-processed);
- the time range a request carries.

## Model

| member | source | states |
|---|---|---|
| Text.LowerSpec | lib/nlu.js:1-5 | `toLowerCase` keeps the length and lower-cases each character on its own (ASCII letters only) |
| Text.LowerOfLower | lib/nlu.js:1-5 | lower-casing a text with no upper-case ASCII letter returns it unchanged |
| Text.RemoveSpacesSpec | lib/nlu.js:4 | `replace(/\s+/g, "")` leaves no white space and only characters of the input, and leaves a text without white space as it is |
| Text.LeadingSpaces | server.js:570 | the white-space run that `trim` drops at the start: all white space, and followed by a non-space |
| Text.TrailingSpaces | server.js:570 | the white-space run that `trim` drops at the end: all white space, and preceded by a non-space |
| Text.TrimStart | server.js:570 | after trimming the start, the text is empty or begins with a non-space |
| Text.TrimEnd | server.js:570 | after trimming the end, the text is empty or ends with a non-space |
| Text.TrimUnpadded | server.js:1151 | a text with no white space at either end is its own `trim()` |
| Text.IndexFrom | server.js:1119 | `indexOf(p, from)` finds an occurrence at or after `from`, and no earlier one from `from` on; None means none exists |
| Text.ContainsIff | server.js:1119 | `includes(p)` holds exactly when `p` occurs at some position |
| Text.MissingHead | server.js:1119 | a pattern whose first character the text lacks is not included in it |
| Text.IndexFromIs | server.js:1119 | the occurrence found is the one characterised by "occurs there and nowhere earlier" |
| Text.IndexFromShift | server.js:514 | searching `a + b` from inside `b` finds the same occurrence as searching `b`, shifted by the length of `a` |
| Text.IndexFromSkip | server.js:514 | a prefix that lacks the pattern's first character shifts the first occurrence by its length |
| Text.ExpandPlain | server.js:280 | a replacement string without `$` is inserted verbatim by `String.prototype.replace` |
| Text.ReplaceFirstAt | server.js:280 | `replace(p, r)` with a string pattern replaces exactly the first occurrence when `r` holds no `$` |
| Text.ReplaceFirstUnique | server.js:514 | in `a + p + b`, where `p`'s first character is absent from `a`, `replace(p, r)` yields `a + r + b` |
| Text.CountCharAppend | server.js:276-283 | the number of `?` marks of a concatenation is the sum of the parts' counts |
| Text.CountCharAbsent | server.js:276-283 | a text without the character counts zero of it |
| Text.SplitOn | server.js:621 | `split(c)` gives at least one piece and no piece holds the separator |
| Text.SplitJoin | server.js:621 | joining the pieces of `split(c)` with `c` gives back the text |
| Text.SplitCount | server.js:621 | `split(c)` gives one more piece than the text has separators |
| Text.NatToString | server.js:60 | `String(n)` of a non-negative number is a non-empty run of decimal digits |
| Text.DigitRun | server.js:60 | the digits `parseInt` reads: a run of digits followed by a non-digit or the end |
| Text.ParseIntOfNatToString | server.js:60 | `parseInt(String(n), 10) == n`: a rendered number reads back as itself |
| Catalog.FindCategory | server.js:129 | `categories.find(c => c.id === id)`: a category found has that id and is in the catalog; none found means no category has it |
| Catalog.FindCategoryByLabel | server.js:114-116 | the category found matches the text by label or by id; none found means none matches either way |
| Catalog.FindMetricIn | server.js:131 | `metrics.find(m => m.id === id)`: a metric found has that id and belongs to the list; none found means no metric has it |
| Catalog.FindMetric | server.js:289-290 | a metric is resolved exactly when the category id is known and that category (not another) holds a metric with the metric id |
| Catalog.FindDimension | server.js:329-331 | `filterDimensions.find(d => d.id === id)`: found has that id, none found means no dimension has it |
| Catalog.SlotHead | server.js:856 | the text before the template's `{where}` slot holds no `{` |
| Catalog.SlotTail | server.js:856 | the text after the slot holds no `{` and begins with " AND " |
| Catalog.SlotSplit | server.js:856 | a template is its head, the `{where}` slot and its tail |
| Catalog.WhereSlotOf | config/metrics.js:15 | a template written as head, `{where}`, " AND " and a rest without `{` has exactly one slot |
| Catalog.SubstituteWhere | server.js:856 | `sql.replace("{where}", where)` puts the clause in the one slot; no `{` remains when the clause has none |
| MetricsConfig.AllMetrics | server.js:774-778 | the flattened metric list holds exactly the metrics of the categories |
| MetricsConfig.ShippedMetrics | config/metrics.js:2-87 | the shipped catalog lists the six metrics in declaration order |
| MetricsConfig.MetricIdsUnique | config/metrics.js:8-84 | no two metrics share an id, so a lookup by id is unambiguous |
| MetricsConfig.TemplateEnds | config/metrics.js:35 | a template built as head, `{where}`, " AND " and rest starts like its head and ends like its rest |
| MetricsConfig.GroupedEnds | config/metrics.js:35 | a grouped template selects its column first and groups by it last |
| MetricsConfig.CountHeadStarts | config/metrics.js:13 | a count template starts with `SELECT COUNT(*) AS value` |
| MetricsConfig.RosterPiecesBraceFree | config/metrics.js:13 | the roster table name and conditions hold no `{` |
| MetricsConfig.MachinePiecesBraceFree | config/metrics.js:63 | the machine table name and condition hold no `{` |
| MetricsConfig.CountHeadsBraceFree | config/metrics.js:35 | the count heads hold no `{` |
| MetricsConfig.DetailHeadsBraceFree | config/metrics.js:24 | the detail heads hold no `{` |
| MetricsConfig.TailsBraceFree | config/metrics.js:24 | the ORDER BY and GROUP BY tails hold no `{` |
| MetricsConfig.EngineerCountWellFormed | config/metrics.js:7-17 | `engineer_count` has one where slot, known time types, declared dimensions and the count head |
| MetricsConfig.EngineerDetailWellFormed | config/metrics.js:18-28 | `engineer_detail` is well formed |
| MetricsConfig.ByProductWellFormed | config/metrics.js:29-39 | `engineer_count_by_product` is well formed and selects and groups by `st_DeptName` |
| MetricsConfig.ByOrgWellFormed | config/metrics.js:40-50 | `engineer_count_by_org` is well formed and selects and groups by `st_OrgName` |
| MetricsConfig.MachineCountWellFormed | config/metrics.js:57-70 | `machine_count` is well formed |
| MetricsConfig.MachineDetailWellFormed | config/metrics.js:71-84 | `machine_detail` is well formed |
| MetricsConfig.AllMetricsWellFormed | config/metrics.js:2-87 | every shipped metric is well formed |
| MetricsConfig.SqlWhereSlots | config/metrics.js:13 | every template has exactly one `{where}` slot, followed by " AND " |
| MetricsConfig.GroupColumnsSelectedAndGrouped | config/metrics.js:34-35 | each grouped metric has a `groupBy`, selects that column first and groups by it last |
| MetricsConfig.AggregateSqlShape | config/metrics.js:13 | both `aggregate` templates begin with the select the chart rewrite matches |
| MetricsConfig.TimeTypesAllowed | config/metrics.js:14 | allowed time types come from month, half_fy and fy; the machine metrics allow none |
| MetricsConfig.DimensionReferencesDeclared | config/metrics.js:15 | every dimension a metric allows or remaps is declared in `filterDimensions` |
| MetricsConfig.GroupByIsNoDimension | server.js:870-873 | no `groupBy` equals a dimension id or "NONE", so the reconciliation branch never runs with the shipped catalog |
| MetricsConfig.ProductDimensionWellFormed | config/metrics.js:90-101 | product value ids are unique and each label equals its id |
| MetricsConfig.OrgDimensionWellFormed | config/metrics.js:102-110 | org value ids are unique and each label equals its id |
| MetricsConfig.CustomerDimensionWellFormed | config/metrics.js:111-121 | customer value ids are unique and each label equals its id |
| MetricsConfig.FilterValuesWellFormed | config/metrics.js:89-122 | every shipped dimension is well formed |
| Nlu.NormalizeLooseShape | lib/nlu.js:1-5 | `normalizeLooseToken` leaves no white space and no upper-case ASCII letter, and leaves an already normal text unchanged |
| Nlu.NormalizeLooseIdempotent | lib/nlu.js:1-5 | normalising twice is normalising once |
| Nlu.TokenFromIff | lib/nlu.js:7-12 | the regular-expression scan from `i` succeeds exactly when a whole-token match starts at or after `i` |
| Nlu.ContainsAsciiTokenIff | lib/nlu.js:7-12 | `containsAsciiToken` holds exactly when the token occurs case-insensitively with no ASCII letter or digit on either side |
| Nlu.CanonicalMapValues | lib/nlu.js:14-23 | every value of the canonical map is a declared value id, and every value's normalised id and label are keys |
| Nlu.BuildCanonicalMap | lib/nlu.js:14-23 | the loop fills the map the dimension's values determine; an unknown dimension gives the empty map |
| Nlu.CanonicalMapOfSelf | lib/nlu.js:17-21 | when no normalised id or label collides with another value's normalised id, each id maps back to itself (later `set` calls overwrite earlier ones) |
| Nlu.SelfStep | lib/nlu.js:19-20 | one pair of `map.set` calls keeps a self-mapping entry of a value it does not collide with |
| Nlu.CanonicalizeFilterValues | lib/nlu.js:25-39 | the loop with its `seen` set computes the canonical values |
| Nlu.CanonFoldAppend | lib/nlu.js:30-37 | processing `a + b` is processing `a`, then `b` from where `a` left off |
| Nlu.CanonFoldMembers | lib/nlu.js:32-36 | a value is emitted exactly when it was already emitted or some key maps to it |
| Nlu.CanonFoldDistinct | lib/nlu.js:34-35 | the `seen` check means no value is emitted twice |
| Nlu.CanonFoldFixed | lib/nlu.js:30-37 | distinct new values whose keys map to them are emitted unchanged and in order |
| Nlu.CanonFoldEmpty | lib/nlu.js:17 | with the empty map nothing is emitted |
| Nlu.CanonFoldSeen | lib/nlu.js:34 | keys that map to nothing or to a value already emitted add nothing |
| Nlu.CanonicalizeDeclared | lib/nlu.js:25-27 | an empty or unknown dimension gives no values; every value emitted is a declared id of the dimension |
| Nlu.CanonicalizeDistinct | lib/nlu.js:29-36 | the output has no duplicates |
| Nlu.CanonicalizeMembers | lib/nlu.js:30-37 | a value is output exactly when some raw value normalises to a key that maps to it |
| Nlu.CanonicalizeFirstSeen | lib/nlu.js:30-37 | one more raw value appends its canonical id when that id is new, and changes nothing otherwise (first-seen order) |
| Nlu.CanonicalizeDeclaredIds | lib/nlu.js:25-39 | distinct declared ids of a self-mapped dimension come out as they went in |
| Nlu.CanonicalizeIdempotent | lib/nlu.js:25-39 | canonicalising a canonical list changes nothing |
| Nlu.NormalizeUpper | lib/nlu.js:1-5 | on an id without white space or lower-case letters, normalisation is lower-casing alone |
| Nlu.LowerCharInjective | lib/nlu.js:3 | lower-casing is one-to-one on characters that are not lower-case letters |
| Nlu.NormalizeUpperInjective | lib/nlu.js:1-5 | normalisation is one-to-one on such ids |
| Nlu.UpperValuesSelfMapped | lib/nlu.js:14-23 | a dimension whose labels equal its ids and whose ids have that shape maps each id to itself |
| Nlu.ShippedIdsUpper | config/metrics.js:95-108 | the shipped product and org ids have that shape |
| Nlu.ProductSelfMapped | config/metrics.js:90-101 | every shipped product id maps to itself |
| Nlu.OrgSelfMapped | config/metrics.js:102-110 | every shipped org id maps to itself |
| Nlu.NormalizeCtExamples | test/nlu.test.js:7-20 | "CT", "ct" and " Ct " all normalise to "ct" |
| Nlu.CanonicalizeSameKey | lib/nlu.js:30-37 | three raw values whose keys map to one id emit that id once |
| Nlu.CanonicalizeExample | test/nlu.test.js:27-30 | `["ct", "CT", " Ct "]` canonicalises to `["CT"]` for the product dimension |
| Nlu.ProductsFromSubsequence | lib/nlu.js:44-49 | the products detected keep the order of the tests |
| Nlu.ProductsFromMembers | lib/nlu.js:44-49 | a product is detected exactly when its token occurs whole in the text |
| Nlu.ProductsFromDistinct | lib/nlu.js:44-49 | a table without repeated values detects no value twice |
| Nlu.DistinctCons | lib/nlu.js:44-49 | prepending a value not in a duplicate-free list keeps it duplicate-free |
| Nlu.OrgsIn | lib/nlu.js:51-60 | at most one org is found: none, "PSM" or "非PSM" |
| Nlu.DetectProducts | lib/nlu.js:44-49 | the five product tests push the values of the tokens found, in order |
| Nlu.ExtractFiltersFromText | lib/nlu.js:41-76 | `extractFiltersFromText` returns the filters of the text: products first, then orgs, else nothing |
| Nlu.ProductsInFacts | lib/nlu.js:44-49 | products come out in the order CT, SPS, ES, 3DI, CERTAS without repeats, and each is reported exactly when its token occurs whole |
| Nlu.FiltersPrecedence | lib/nlu.js:51-76 | nothing is found exactly when no product and no org is mentioned; a product mention wins; a non-PSM mention yields the canonical "非PSM" |
| Nlu.ShippedProductIds | config/metrics.js:90-101 | the product dimension is found and declares all five product ids |
| Nlu.ShippedOrgIds | config/metrics.js:102-110 | the org dimension is found and declares "PSM" and "非PSM" |
| Nlu.ShippedProductFilters | lib/nlu.js:63-67 | with the shipped catalog, canonicalising the detected products changes nothing |
| Nlu.ShippedOrgCanonical | lib/nlu.js:69-73 | with the shipped catalog, canonicalising the detected org changes nothing |
| Nlu.ShippedFilters | test/nlu.test.js:7-25 | with the shipped catalog, the result is the product list when non-empty, else the org list when non-empty, else nothing |
| Nlu.SubsequenceMembers | lib/nlu.js:44-49 | every element of a subsequence belongs to the full list |
| Slots.FirstExplicitMonth | server.js:674 | `text.match(/20\d{4}/)` finds the leftmost position where "20" and four digits start, and none exists when it finds nothing |
| Slots.FirstMonthMark | server.js:678 | `text.match(/(\d{1,2})月/)` finds the leftmost position where one or two digits and 月 start, and none exists when it finds nothing |
| Slots.MonthOfNumber | server.js:680-685 | a bare month number gives a month exactly for 10, 11 and 12, and that month is "2025" followed by the number |
| Slots.ParseDigits | server.js:680 | `parseInt` of a non-empty run of digits is its decimal value |
| Slots.ExtractMonthShape | server.js:673-686 | a month found in a text is always six digits beginning with "20" |
| Slots.ExtractMonthExplicit | server.js:674-677 | the leftmost `20\d{4}` is the answer, whatever else the text holds |
| Slots.ExtractMonthMark | server.js:678-685 | without a `20\d{4}`, the first `N月` alone decides: 10, 11 and 12 give a 2025 month and every other N gives none, even if a later `N月` would qualify |
| Slots.ExplicitMonthExample | server.js:674-677 | "202511的人数" gives "202511" |
| Slots.MonthMarkExample | server.js:678-682 | "10月" gives "202510" |
| Slots.LeftmostMarkExample | server.js:678-682 | in "110月" the match starts at the second digit, so the answer is "202510" |
| Slots.UnknownMonthExample | server.js:678-685 | "2025年3月" gives no month |
| Slots.Tagged | server.js:617-618 | each metric of a category is tagged with that category's id, in order |
| Slots.FirstMatchInSpec | server.js:618-631 | within a category, the metric found is the first with a matching keyword |
| Slots.FirstMatchingAppend | server.js:617-633 | scanning one list after another finds the first list's match if it has one, else the second's |
| Slots.ExtractKpiFirst | server.js:616-635 | `extractKpiFromText` finds the first metric in catalog order with a keyword whose `+`-separated parts all occur in the text, and finds none exactly when no metric has one |
| Slots.SinglePartKeyword | server.js:621-622 | a keyword without `+` matches when the text includes it |
| Slots.CountMatchesShadowText | config/metrics.js:11 | "各产品人数" matches the keyword "人数" of `engineer_count` |
| Slots.ByProductMatchesShadowText | config/metrics.js:33 | "各产品人数" also matches "各产品+人数" of `engineer_count_by_product` |
| Slots.KeywordShadowing | server.js:616-635 | both metrics match "各产品人数", and the plain count, declared first, is the one found |
| Slots.SplitHalves | server.js:621 | splitting at the only separator gives the two sides |
| Slots.SplitFirst | server.js:621 | splitting at the first separator gives the part before it, then the split of the rest |
| Slots.SplitNone | server.js:621 | a text without the separator splits into itself alone |
| Slots.TextFilters | server.js:688-704 | the wrapper only returns the product or the org dimension |
| Slots.TextFiltersAsNlu | server.js:688-704 | since the NLU helpers only name those two dimensions, the wrapper passes their result on unchanged |
| Slots.ClassifierUnused | server.js:582 | when the keyword rules find a metric, the classifier's answer has no effect |
| Slots.TextSlotsKept | server.js:577-580 | slots found in the text are kept: the keyword metric, the month as a month range labelled by its value, and the NLU filters |
| Slots.ClassifierFills | server.js:582-598 | without a keyword metric, the classifier fills only the empty slots: its metric when it names one, its time when the text has no month, its dimension and values when the text has no filter |
| Slots.MergeNoneIff | server.js:601-603 | there is no result exactly when neither the rules nor the classifier found a metric, a time or a dimension |
| Slots.ClassifierAnswerNeverNone | server.js:785-790 | the classifier's answer always carries a dimension, "NONE" at least, so once it answers the result is never empty |
| Slots.EntitiesOfText | server.js:569-571 | blank text gives nothing; text in which the rules find a metric gives the same as if there were no classifier |
| Where.BuildWhere | server.js:285-348 | `buildWhere` returns the predicate and parameters that the time clause followed by the filter clause determine |
| Where.AppendTimePredicate | server.js:292-323 | the time branch appends exactly the clause of the range's type: the month, the half year with its month bounds, the fiscal year, or an unknown type's month unless the value is "any" |
| Where.AppendFilterPredicate | server.js:324-346 | the filter branch appends an `IN` list over the dimension's column, or the metric's `dimensionMap` column when that is non-empty, and its loop pushes the values in order |
| Where.PlaceholderCount | server.js:341 | `values.map(() => "?").join(",")` holds one `?` per value and no `$` or `{` |
| Where.MonthHeadSafe | server.js:295 | the month comparison text holds no `?`, `$` or `{` of its own |
| Where.YearHeadSafe | server.js:317 | the year comparison text holds no `?`, `$` or `{` of its own |
| Where.CastHeadSafe | server.js:311 | the half-year comparison head holds no `?`, `$` or `{` |
| Where.CastTailSafe | server.js:311 | the half-year comparison tail holds no `?`, `$` or `{` |
| Where.HalfMiddleSafe | server.js:311 | the `BETWEEN` text holds no `?`, `$` or `{` |
| Where.CountSafe | server.js:295 | a safe piece adds no `?` mark |
| Where.MarkCount | server.js:295 | one `?` mark adds one to the count |
| Where.MonthPredicateCount | server.js:295-296 | the month predicate holds one mark for its one parameter |
| Where.YearPredicateCount | server.js:317-318 | the fiscal-year predicate holds one mark for its one parameter |
| Where.HalfPredicateCount | server.js:310-312 | the half-year predicate holds three marks for its three parameters |
| Where.TimeClauseCount | server.js:292-323 | every time clause holds as many `?` marks as it pushes parameters, and no `$` or `{` |
| Where.FilterClauseCount | server.js:324-346 | over safe columns, the filter clause holds as many marks as values pushed, and no `$` or `{` |
| Where.StubSafe | server.js:287 | `WHERE 1=1` holds no `?`, `$` or `{` |
| Where.CountThree | server.js:287-346 | the stub, then two counted clauses, hold the sum of their marks |
| Where.ChosenMetricSafe | server.js:289-290 | the chosen metric of a catalog with safe columns maps dimensions only to safe columns |
| Where.WhereParamsMatch | server.js:285-348 | over safe columns, `params.length` equals the number of `?` in `where`, and `where` holds no `$` or `{` |
| Where.WhereStubOnly | server.js:287 | the predicate starts with `WHERE 1=1`, and is exactly the stub when there are no parameters |
| Where.FilterParamsInOrder | server.js:324-346 | values are pushed exactly when the dimension is set, not NONE, declared and has values; then they are the filter values in list order |
| Where.TimeClauseExamples | server.js:292-323 | month "202510" pushes itself; "2025H1" pushes 2025, 1, 6; "2025H2" pushes 2025, 7, 12; a half year without H1/H2 pushes 2025, 1, 12; fy pushes the year; `none` pushes nothing |
| Where.ShippedDimensionColumnsSafe | config/metrics.js:93-114 | the shipped dimensions' columns are safe |
| Where.ShippedMappedColumnsSafe | config/metrics.js:66-68 | the shipped `dimensionMap` columns are safe |
| Where.ShippedColumnsSafe | config/metrics.js:89-122 | every column a shipped filter can name is safe |
| Patterns.StubMatchAt | server.js:272-273 | a match of `\bWHERE\s+1=1\s+AND\s+` or `\bWHERE\s+1=1\b\s*` (case-insensitive, greedy runs) starting at `i` ends after `i` and inside the text |
| Patterns.CountSelectAt | server.js:513 | a match of `SELECT\s+COUNT\(\*\)\s+AS\s+value` starting at `i` ends after `i` and inside the text |
| Patterns.FirstMatch | server.js:272-273 | the match found starts at or after `i` and is non-empty |
| Patterns.FirstMatchLeftmost | server.js:272-273 | a match is found exactly when one starts at or after `i`, and no match starts before the one found |
| Patterns.ReplaceMatch | server.js:272 | `replace(regex, repl)` without `g` and with a `$`-free replacement replaces the leftmost match only, verbatim |
| Patterns.FirstMatchIs | server.js:272-273 | the leftmost match is the one at `k` when none starts between `i` and `k` |
| Patterns.FirstMatchNone | server.js:272-273 | where the pattern matches nowhere, nothing is found |
| Patterns.ReplaceNothing | server.js:272-273 | a text the pattern matches nowhere is left as it is |
| Patterns.StubStart | server.js:272-273 | both patterns read a bounded "WHERE", one space and "1=1" at the stub |
| Patterns.StubAndMatch | server.js:272 | "WHERE 1=1 AND " at a word boundary, followed by a non-space or the end, is a match of the first pattern ending after the last space |
| Patterns.StubAloneMatch | server.js:273 | a "WHERE 1=1" that ends the text is a match of the second pattern |
| Patterns.CountSelectMatch | server.js:513 | "SELECT COUNT(*) AS value" is a match of the chart pattern, covering exactly those 24 characters |
| Patterns.LowerTo | server.js:272 | the `i` flag: a text matches a lower-case word when each character lower-cases to the word's |
| Patterns.SpacesOne | server.js:272 | a greedy `\s+` takes exactly one space when a non-space or the end follows it |
| Display.ReplaceAfterPrefix | server.js:280 | `replace("?", v)` leaves a mark-free prefix alone |
| Display.FormatAfterPrefix | server.js:278-281 | the loop leaves a mark-free prefix alone when no parameter text holds a `?` or `$` |
| Display.FormatJoined | server.js:278-281 | over a text joined from mark-free pieces by `?`, parameter `i` lands in mark `i` |
| Display.FormatFillsMarks | server.js:276-282 | when the text has as many `?` as there are parameters (and no parameter text holds `?` or `$`), parameter `i` lands in the `i`-th mark |
| Display.FilledMarkFree | server.js:276-282 | once every mark has had its parameter no `?` is left |
| Display.FormatSqlForDisplay | server.js:276-283 | the loop renders strings in quotes and numbers as decimals into the marks in order, then strips the stub |
| Display.StripNothing | server.js:270-274 | a text neither pattern matches is shown as it is |
| Display.StripStubAnd | server.js:272 | "WHERE 1=1 AND " followed by a condition becomes "WHERE " followed by that condition |
| Display.StubAndLayout | server.js:272 | where the characters of "WHERE 1=1 AND " sit after a non-word character |
| Display.StripStubAtEnd | server.js:273 | a trailing "WHERE 1=1" is dropped |
| Query.StatementOf | server.js:839-856 | a statement is sent exactly when a metric is chosen and it has SQL |
| Query.ValueOr0 | server.js:876 | a row's count, its value or else 0, is 0 or a truthy value |
| Query.CountOf | server.js:874-876 | the count looked up for a value is 0 or a truthy value |
| Query.CountOfMissing | server.js:874-876 | no row carries the value: the count is 0 |
| Query.CountOfLast | server.js:874 | the last row carrying the value decides the count (later `Map` entries overwrite earlier ones): its truthy `value`, or 0 |
| Query.ReconcileRows | server.js:875-879 | one row per requested value, in the order requested, holding the value under the grouping key and its count |
| Query.RunQueryOutcome | server.js:839-930 | without a chosen metric or SQL nothing is returned and no SQL shown; otherwise the rows answered come back as they are, except grouped rows, which are reconciled exactly when the chosen dimension is the grouping key and values are chosen; the SQL shown is the statement formatted for display |
| Query.StatementShape | server.js:849-856 | the statement is the template with the predicate in its `{where}` slot, plus " LIMIT 50" for details, and it holds one `?` per parameter |
| Query.ShownStatement | server.js:862 | the SQL shown is the statement's pieces between marks with the parameters written in order, stub stripped |
| Query.ProductColumnIsFilterColumn | server.js:500-510 | the chart groups by the column the product filter compares |
| Query.ProductSelectPlain | server.js:513 | the rewritten select over a safe column adds no `?`, `$` or `{` |
| Query.RewriteCountSelect | server.js:513 | the chart rewrite replaces the leading `SELECT COUNT(*) AS value` with the product select and keeps the rest |
| Query.ChartStatementShape | server.js:512-517 | the chart statement is the product select, the rest of the template with the predicate in its slot, and `GROUP BY` the product column; it holds one `?` per parameter |
| Query.ChartText | server.js:512-515 | the two replacements of the chart path on a template of that shape, and the marks they leave |
| Query.ChartWhere | server.js:514 | the `{where}` slot after the rewritten select receives the predicate |
| Query.ChartCount | server.js:515 | appending `GROUP BY` a safe column adds no mark |
| Query.TemplateMarkFree | config/metrics.js:13 | a template made of mark-free pieces has no `?` of its own |
| Query.ShippedTemplatesMarkFree | config/metrics.js:2-87 | no shipped template holds a `?` of its own |
| Query.ChosenInCatalog | server.js:289-290 | the metric a conversation chose is one of the catalog's |
| Query.ShippedStatement | server.js:849-862 | with the shipped catalog every chosen metric yields a statement with one `?` per parameter, and the SQL shown has parameter `i` in mark `i` |
| Query.NeverReconciles | server.js:873 | when grouping keys are never dimension ids, grouped rows are never reconciled for a dimension the dialogue can hold |
| Query.ShippedGroupKeys | config/metrics.js:35-46 | the shipped grouping keys are not dimension ids or "NONE" |
| Query.ShippedGroupKeyValues | config/metrics.js:35-46 | the shipped grouping keys are `st_DeptName` and `st_OrgName` |
| Query.DeptColumnNotDimension | config/metrics.js:89-122 | no dimension has the id `st_DeptName` |
| Query.OrgColumnNotDimension | config/metrics.js:89-122 | no dimension has the id `st_OrgName` |
| Query.ShippedProductColumns | server.js:500-510 | the chart groups `engineer_count` by `st_DeptName` and `machine_count` by `st_ProductLine` |
| Query.ShippedChartTemplates | config/metrics.js:13 | both shipped `aggregate` templates have the shape the chart rewrite expects |
| Query.DeptColumnSafe | config/metrics.js:93 | `st_DeptName` is a safe column |
| Query.ProductLineSafe | config/metrics.js:67 | `st_ProductLine` is a safe column |
| TimeOptions.LexTotal | server.js:50 | the string order of `sort()` relates any two texts one way or the other |
| TimeOptions.LexAntisymmetric | server.js:50 | texts ordered both ways are equal |
| TimeOptions.Insert | server.js:89-92 | inserting adds exactly the one element and puts either it or the old first element first |
| TimeOptions.SortBy | server.js:89-92 | the sort returns a rearrangement of its input |
| TimeOptions.InsertSorted | server.js:89-92 | inserting into a sorted list keeps it sorted by key |
| TimeOptions.SortBySorted | server.js:89-92 | the sort returns its input in order of the keys |
| TimeOptions.DistinctCount | server.js:89-92 | in a list without repeats each element occurs at most once |
| TimeOptions.RepeatCount | server.js:89-92 | an element at two positions occurs at least twice |
| TimeOptions.DistinctPermutation | server.js:89-92 | sorting a list without repeats leaves no repeats |
| TimeOptions.Present | server.js:47-49 | `.filter((v) => v)` keeps exactly the values that are present and non-empty |
| TimeOptions.YearsSpec | server.js:55-66 | a year becomes a key exactly when a month text kept begins with it, and no key is set twice |
| TimeOptions.NumsSpec | server.js:55-66 | a number is pushed for a year exactly when a month text kept of that year has it |
| TimeOptions.NumsOfNewYear | server.js:62-65 | a year that is not yet a key has had nothing pushed |
| TimeOptions.FyChoices | server.js:70-73 | one fiscal-year choice per key |
| TimeOptions.HalfChoiceParts | server.js:76-87 | "<y>H1" and "<y>H2" both name year `y`, and differ |
| TimeOptions.HalfChoicesShape | server.js:76-87 | every half-year choice pushed has that form and names a key |
| TimeOptions.HalfChoicesMembers | server.js:74-87 | key `y` gives "<y>H1" exactly when one of its numbers is from 1 to 6, and "<y>H2" exactly when one is from 7 to 12 |
| TimeOptions.HalfChoicesDistinct | server.js:69-88 | no half-year choice is pushed twice when no key repeats |
| TimeOptions.MonthChoices | server.js:51-54 | one choice per month, valued and labelled by that month, in order |
| TimeOptions.GroupByYear | server.js:55-66 | the first loop files each kept month under its first four characters: keys in first-seen order, numbers in the order met |
| TimeOptions.FileMonth | server.js:56-65 | a month the loop keeps is filed under its year, which becomes a key if it was not one |
| TimeOptions.SkipMonth | server.js:58-61 | a month shorter than six characters or without a number changes nothing |
| TimeOptions.GetTimeOptions | server.js:42-98 | `getTimeOptions` returns the options the read rows determine |
| TimeOptions.ChoicesStep | server.js:69-88 | one more key appends its fiscal-year choice and its half-year choices |
| TimeOptions.YearChoices | server.js:69-88 | the second loop pushes, key by key, the fiscal-year choice and the half-year choices of each key |
| TimeOptions.PermutedMembers | server.js:50 | a rearrangement holds the same elements |
| TimeOptions.MonthsMembers | server.js:47-50 | the months sorted are the present, non-empty values read |
| TimeOptions.KeptYears | server.js:55-66 | the years are those of the values read that are month texts |
| TimeOptions.FyChoicesAt | server.js:70-73 | choice `i` is the fiscal-year choice of key `i` |
| TimeOptions.FyChoicesMembers | server.js:70-73 | every fiscal-year choice is that of a key, each key has one, and no repeats when keys do not repeat |
| TimeOptions.MonthOptions | server.js:51-54 | the month options are the present, non-empty values read, each labelled by itself |
| TimeOptions.FyOptions | server.js:69-89 | a year is offered as a fiscal year exactly when a month text read begins with it; no value is offered twice |
| TimeOptions.FySorted | server.js:89 | sorted fiscal-year choices of distinct keys are one per key, without a repeated value |
| TimeOptions.HalfFyOptions | server.js:69-92 | year `y` is offered as "<y>H1" exactly when a month text of that year has a number from 1 to 6, as "<y>H2" when one has a number from 7 to 12; no value is offered twice |
| TimeOptions.HalfValuesDistinct | server.js:90-92 | different half-year choices have different values |
| TimeOptions.HalfYearMembers | server.js:74-75 | a year has a number in a range among the values read exactly when one of its month texts has it |
| TimeOptions.MonthKept | server.js:55-66 | a month text read is filed under its year with its number |
| Dialog.StagedIdempotent | server.js:637-671 | running `updateStageAndGetReply` twice gives what running it once gives |
| Dialog.StagedKeepsSlots | server.js:637-671 | only the stage and the time range change, the range only from none to the range "none", for a metric that takes no time |
| Dialog.StagedStage | server.js:637-671 | the stage is the earliest slot still empty (category, metric, time type when the metric takes time, dimension, values), else the summary; each stage exactly under its condition |
| Dialog.StagedIgnoresStage | server.js:637-671 | the result depends on the slots alone, not on the stage or the last query |
| Dialog.ExecutedOutcome | server.js:349-378 | `executeQuery` never touches a slot; a database failure on a statement goes back to the summary with nothing else changed; otherwise the result is shown with the rows kept and the SQL shown recorded; without a statement the result shown is empty |
| Dialog.ButtonIgnored | server.js:380-567 | a payload the stage does not react to changes nothing |
| Dialog.ButtonResets | server.js:437-466 | "modify" at the summary and "new_query" on the result reset every field to the empty state |
| Dialog.FilterValueAdded | server.js:428-435 | a chosen value is added once, after the old values and only if absent, every other slot kept, and the summary follows |
| Dialog.NoDimensionExecutes | server.js:413-418 | choosing the dimension NONE clears the values and runs the query at once, ending on the result or back on the summary |
| Dialog.ChartOnlySql | server.js:470-552 | the chart button changes nothing but the SQL shown, and that only for an `aggregate` metric whose grouped statement the database answered |
| Dialog.OverrideLabelled | server.js:1023-1036 | the request's range is taken exactly when it has a value or a label; the label falls back to the value; type and value are kept |
| Dialog.TimeLabelExamples | server.js:1156-1166 | "202506" is a month, "2025H1" a half year and "2025" a fiscal year; "2025H3" is nothing, and each is accepted only for its own type or for no type |
| Dialog.TypedTimeValidated | server.js:1149-1186 | a typed time is recorded only in the time-value step and only in the form of the chosen type, as a custom range valued and labelled by the trimmed text; typing at the time-type step changes nothing |
| Dialog.WithEntitiesStaged | server.js:1043-1061 | writing the named slots and recomputing the stage leaves a state whose stage is already recomputed |
| Dialog.ChatEntitiesWin | server.js:1040-1071 | text the rules or the classifier understand wins over any button: the payload is ignored and the stage is the recomputed one |
| Dialog.ChatConfirmExecutes | server.js:1204-1211 | "confirm_start" at the summary runs the query |
| Dialog.Conversation.constructor | server.js:100-112 | `createEmptyState`: every field empty, the stage the category step, the dimension NONE |
| Dialog.Conversation.Clear | server.js:439-448 | the reset of "modify" and "new_query": every field back to its empty value |
| Dialog.Conversation.UpdateStage | server.js:637-671 | the early-return chain leaves the state `Staged` computes from the old one |
| Dialog.Conversation.ExecuteQuery | server.js:349-378 | the state afterwards is the one `Executed` computes from the old one and the database's answer |
| Dialog.Conversation.HandleButton | server.js:380-567 | the state afterwards is the one `Button` computes from the old state, the payload and the database's answer |
| Dialog.Conversation.SlotButton | server.js:381-412 | the category, metric, time-type and time-value buttons leave the state `Button` computes |
| Dialog.Conversation.FilterButton | server.js:413-436 | the dimension, confirm-values and value buttons leave the state `Button` computes |
| Dialog.Conversation.ResultButton | server.js:437-553 | "modify", "new_query" and "chart" leave the state `Button` computes |
| Dialog.Conversation.ChartButton | server.js:470-552 | the chart button leaves the state `Charted` computes |
| Dialog.Conversation.HandleChat | server.js:1004-1246 | one `/api/chat` request leaves the state `Chat` computes from the old state, the text, the payload, the time range and the answers of the classifier and the database |
| Dialog.Conversation.ApplyEntities | server.js:1043-1061 | the named slots are written, a request range taking the place of the text's, then the stage is recomputed |
| Dialog.Conversation.TypeText | server.js:1093-1201 | text without a button leaves the state `Typed` computes: a category by label or id at the first step, a valid time at the time-value step |
| LegacyConfig.LegacyMetrics | version_1/config/metrics.js:2-33 | the first catalog lists exactly the four personnel metrics, in order |
| LegacyConfig.LegacyMetricIdsUnique | version_1/config/metrics.js:6-31 | no two metrics share an id |
| LegacyConfig.LegacyGroupByIsDimension | version_1/config/metrics.js:19-54 | each grouping metric groups by a filter dimension's id, and that dimension's column has the same name |
| LegacyConfig.LegacyDimensionsWellFormed | version_1/config/metrics.js:35-55 | in both dimensions each value is labelled by its id and no id repeats |
| LegacyConfig.LegacyDimensionColumns | version_1/config/metrics.js:35-55 | dimension ids differ and no column holds a parameter mark |
| Legacy.FirstYearMonth | version_1/server.js:306 | the position found is the leftmost match of `/20\d{4}/` |
| Legacy.FirstMonthWord | version_1/server.js:310 | the position found is the leftmost match of `/(\d{1,2})月/` |
| Legacy.ExtractMonth | version_1/server.js:305-318 | a month found is six digits beginning "20" |
| Legacy.ExtractMonthExplicit | version_1/server.js:306-309 | the leftmost six-digit month beginning "20" is returned as it stands |
| Legacy.ExtractMonthWord | version_1/server.js:310-317 | without one, the leftmost "N月" decides: 10, 11 and 12 give 202510, 202511 and 202512, any other number nothing |
| Legacy.ExtractMonthAbsent | version_1/server.js:310-311 | a text with neither form gives no month |
| Legacy.MonthWordsAreExamples | version_1/server.js:314-316 | the months "N月" can give are exactly the catalog's example months |
| Legacy.Mentioned | version_1/server.js:321-327 | a token is collected exactly when the text contains it; nothing is collected exactly when the text contains none |
| Legacy.ProductsMentioned | version_1/server.js:321-324 | products are collected in the order ct, sps, es |
| Legacy.OrgsMentioned | version_1/server.js:325-327 | organisations are collected in the order psm, 非psm |
| Legacy.ExtractFilters | version_1/server.js:320-341 | `extractFiltersFromText` returns the products named, else the organisations named, else null |
| Legacy.FiltersPrecedence | version_1/server.js:328-340 | a text naming a product filters by exactly the products it names; one naming none but an organisation filters by exactly the organisations it names; a filter always has a value |
| Legacy.ContainsTail | version_1/server.js:326-327 | a text containing `a + b` contains `b` |
| Legacy.NonPsmNamesBoth | version_1/server.js:326-327 | a text naming 非psm and no product filters by both psm and 非psm, since "非psm" contains "psm" |
| Legacy.KeywordRules | version_1/server.js:265-303 | blank text gives no intent; a keyword rule that fires decides the category, metric and month; otherwise the classifier's answer is taken |
| Legacy.KeywordMetricChoice | version_1/server.js:270-299 | "工程师" with "数量" picks a count (by product on "按产品", by organisation on "按组织" or "按org"), else "工程师" with "明细" the listing; a rule fires exactly when "工程师" comes with "数量" or "明细" |
| Legacy.ParseIntentCorrected | version_1/server.js:269-287 | the parse as written throws exactly when a keyword rule fires on a text naming no filter; where it does not throw, it agrees with the corrected parse, which otherwise leaves the dimension unset |
| Legacy.NoFilterNamed | version_1/server.js:320-341 | a text without c, s, e, p or 非 names no filter |
| Legacy.MonthCountWithoutFilter | version_1/server.js:265-287 | a count request opening with a month and naming no filter throws as written and, corrected, reads the count of that month with no dimension |
| Legacy.SuggestedInputCrashes | version_1/server.js:611 | the input the server suggests, "202510工程师数量", throws as written and, corrected, reads the October 2025 engineer count |
| Legacy.SuggestedInputShape | version_1/server.js:611 | the suggested input opens with the month 202510, followed by "工程师" and "数量" |
| Legacy.ProcessedStage | version_1/server.js:418-444 | the intent's slots are written in; the stage is the time step without a time range, else the dimension step without a dimension (which becomes NONE with no values), else the summary |
| Legacy.MarksCount | version_1/server.js:471 | the joined marks hold one `?` per filter value |
| Legacy.Strs | version_1/server.js:473-475 | one string parameter per filter value, in order |
| Legacy.FilterConditionMarks | version_1/server.js:471-472 | the filter predicate holds one `?` per value when the column holds none |
| Legacy.OneMark | version_1/server.js:459 | the month predicate holds one `?` |
| Legacy.HeadMarks | version_1/server.js:457-461 | the clause before the filter holds one `?` exactly when the month is filtered |
| Legacy.WhereMarks | version_1/server.js:456-477 | the clause holds one `?` per parameter: the month's first when the range has a value, then one per value of a declared dimension |
| Legacy.BuildWhere | version_1/server.js:456-477 | the clause builder's loop pushes the filter values after the month |
| Legacy.LegacyMetricsHaveStatements | version_1/server.js:478-559 | every metric of the first catalog has a statement |
| Legacy.ButtonProgression | version_1/server.js:157-201 | the buttons walk category, metric, time range (a month labelled by its value) and dimension in order; NONE skips to the summary and clears the values |
| Legacy.FilterValueAdded | version_1/server.js:209-217 | a chosen value is added once, after those already chosen, and the summary follows; nothing else changes |
| Legacy.ButtonResets | version_1/server.js:218-256 | "modify" at the summary and "new_query" on the result restore the empty state; the other result buttons change nothing |
| Legacy.CustomRangeAddsNoMonth | version_1/server.js:615-624 | a typed time range has no value, so the query's clause is the one with no time range |
| Legacy.SuggestedInputDialog | version_1/server.js:574-585 | with the parse corrected, the suggested input leads, at any step and with any button, to the dimension step with the October 2025 engineer count chosen |
| Legacy.ChatTextWins | version_1/server.js:574-596 | text the rules or the classifier understand wins over any button; text they do not understand at the first step changes nothing |
| Legacy.Conversation.constructor | version_1/server.js:34-45 | `createEmptyState`: the first step with every slot empty and no dimension |
| Legacy.Conversation.Clear | version_1/server.js:219-227 | "modify" resets every field to its empty value |
| Legacy.Conversation.ProcessIntent | version_1/server.js:418-444 | the record becomes the processed state of the intent |
| Legacy.Conversation.HandleButton | version_1/server.js:157-263 | the record becomes the state the button leads to |
| Legacy.Conversation.Statement | version_1/server.js:446-560 | the statement sent is that of the record: none without a catalog metric, a count, a grouped count or a listing of at most 50 rows |
| Legacy.Conversation.ExecuteQuery | version_1/server.js:640-671 | "confirm_start" records the rows and shows the result, or returns to the summary when the database fails |
| Legacy.Conversation.TypeText | version_1/server.js:598-638 | typed text names a category at the first step, or becomes a custom time range at the time step; elsewhere it changes nothing |
| Legacy.Conversation.HandleChat | version_1/server.js:562-683 | one request leaves the record in the state the dialogue function gives for it |

## Left out

- `db.js`: the SQLite connection, the schema and the seeding are input and output. Each query's answer is an input of the model.
- Express plumbing: routes, CORS, static files, status codes, `res.json` and logging. A request without a `conversationId` is not modelled.
- The shared `conversations` map and the interleaving of concurrent requests: the model handles one request on one conversation at a time.
- `parseIntentWithLlm` (server.js:706-809, version_1/server.js:343-416): the fetch, its timeout and the parsing of the model's answer. Its post-processed answer is an input.
- The replies: Chinese reply texts, `summarizeState`, `withSummary`, `getSummary` and the button lists of `buildOptionsForStage`.
- ECharts option objects: only the SQL and the rows that feed a chart are modelled.
- `getDetailData` and the download endpoints (server.js:1248-1299, version_1/server.js:685-726), which export through ExcelJS and HTTP headers.
- The `/api/time-options` route (server.js:942-1002) repeats `getTimeOptions` line for line and is not modelled separately.
- `processIntentAndGetReply` of server.js (server.js:811-837) is never called there.
- Nlu.NormalizeLoose: lower-cases ASCII letters only. `toLowerCase` also lower-cases other letters, for example in a typed filter value.
- `localeCompare` is modelled as the order of character codes, which agrees with it on the digit strings the months, years and half-years are made of.
- Strings are sequences of characters, not of UTF-16 code units. Non-BMP characters do not occur in the catalogs or the patterns.
- Numbers are unbounded integers. `NaN` and floating-point values of database cells are not modelled. A cell's truthiness is that of its integer or string.
- Null, undefined and "" are all modelled as "" wherever the source only tests truthiness.
- Nlu.ContainsAsciiToken: letters match without regard to case only when they are ASCII letters. JavaScript's `i` flag also folds other letters, but every token the NLU helpers pass is ASCII. An ASCII letter never matches a non-ASCII character under that flag either.
- A metric kind the catalog does not declare is not modelled. Every metric of both catalogs has one of the three kinds.
- A `kpi_category` button with an id the catalog lacks: in the first version it throws while building the reply (version_1/server.js:163), after the state has changed. The model keeps the state change and has no reply to lose.
- Legacy.Chat, Legacy.SuggestedInputDialog: use the corrected text parse. The parse as written throws on a keyword text that names no filter; see Findings.

## Findings

| source | as written | input that shows it | evidently intended | confidence | as-written member | corrected member |
|---|---|---|---|---|---|---|
| version_1/server.js:269-299 | both keyword rules of `parseIntentFromText` read `filtersFromText.filterDimension`, but `extractFiltersFromText` returns null when the text names no product or organisation, so the request throws | "202510工程师数量", the very input the server suggests at version_1/server.js:611 | a keyword text without a filter yields an intent with no filter dimension, and the dialogue asks for one | not executed | Legacy.SuggestedInputCrashes | Legacy.ParseIntentCorrected |
