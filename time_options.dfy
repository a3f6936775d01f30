/** `getTimeOptions` of server.js: the month, half-year and fiscal-year choices offered
    for the time slot, computed from the `st_WrMonth` values the roster table holds. The
    table read is the input `rows`: `Some(String(v))` for a value `v`, `None` for null. */
module TimeOptions {
  import opened Wrappers
  import opened Text

  /** One choice `{ value, label }`; `label` is `caption` here. */
  datatype Choice = Choice(value: string, caption: string)

  /** The object `getTimeOptions` returns: `{ month, half_fy, fy }`. */
  datatype Options = Options(month: seq<Choice>, halfFy: seq<Choice>, fy: seq<Choice>)

  // ---------------------------------------------------------------- string order

  /** The order in which strings are sorted: character by character, a prefix first. */
  predicate LexLe(a: string, b: string)
    decreases |a|
  {
    a == [] || (b != [] && (a[0] < b[0] || (a[0] == b[0] && LexLe(a[1..], b[1..]))))
  }

  /** Any two strings are ordered one way or the other. */
  lemma {:induction false} LexTotal(a: string, b: string)
    ensures LexLe(a, b) || LexLe(b, a)
    decreases |a|
  {
    if a != [] && b != [] && a[0] == b[0] {
      LexTotal(a[1..], b[1..]);
    }
  }

  /** Strings ordered both ways are equal. */
  lemma {:induction false} LexAntisymmetric(a: string, b: string)
    requires LexLe(a, b) && LexLe(b, a)
    ensures a == b
    decreases |a|
  {
    if a != [] {
      LexAntisymmetric(a[1..], b[1..]);
      assert a == [a[0]] + a[1..] && b == [b[0]] + b[1..];
    }
  }

  // ---------------------------------------------------------------- sorting

  /** Neighbours are in order of their keys. */
  predicate SortedBy<T>(xs: seq<T>, key: T -> string) {
    forall i :: 0 <= i < |xs| - 1 ==> LexLe(key(xs[i]), key(xs[i + 1]))
  }

  /** `x` placed before the first element whose key is greater than its own. */
  function Insert<T>(x: T, xs: seq<T>, key: T -> string): (r: seq<T>)
    ensures multiset(r) == multiset(xs) + multiset{x}
    ensures r != [] && (r[0] == x || (xs != [] && r[0] == xs[0]))
  {
    if xs == [] then [x]
    else if !LexLe(key(xs[0]), key(x)) then [x] + xs
    else
      assert xs == [xs[0]] + xs[1..];
      [xs[0]] + Insert(x, xs[1..], key)
  }

  /** `Array.prototype.sort` by key: each element in turn is inserted after every
      element already placed whose key is not greater. */
  function SortBy<T>(xs: seq<T>, key: T -> string): (r: seq<T>)
    ensures multiset(r) == multiset(xs)
  {
    if xs == [] then []
    else
      assert xs == xs[..|xs| - 1] + [xs[|xs| - 1]];
      Insert(xs[|xs| - 1], SortBy(xs[..|xs| - 1], key), key)
  }

  lemma {:induction false} InsertSorted<T>(x: T, xs: seq<T>, key: T -> string)
    requires SortedBy(xs, key)
    ensures SortedBy(Insert(x, xs, key), key)
  {
    if xs == [] {
    } else if !LexLe(key(xs[0]), key(x)) {
      LexTotal(key(x), key(xs[0]));
    } else {
      var tail := xs[1..];
      assert SortedBy(tail, key) by {
        assert forall i :: 0 <= i < |tail| ==> tail[i] == xs[i + 1];
      }
      InsertSorted(x, tail, key);
      var r := Insert(x, xs, key);
      var t := Insert(x, tail, key);
      assert r == [xs[0]] + t;
      assert LexLe(key(xs[0]), key(t[0]));
      assert forall i :: 1 <= i < |r| ==> r[i] == t[i - 1];
    }
  }

  /** The sort puts its result in order of the keys. */
  lemma {:induction false} SortBySorted<T>(xs: seq<T>, key: T -> string)
    ensures SortedBy(SortBy(xs, key), key)
  {
    if xs != [] {
      SortBySorted(xs[..|xs| - 1], key);
      InsertSorted(xs[|xs| - 1], SortBy(xs[..|xs| - 1], key), key);
    }
  }

  /** No element occurs twice. */
  predicate Distinct<T(==)>(xs: seq<T>) {
    forall i, j :: 0 <= i < j < |xs| ==> xs[i] != xs[j]
  }

  lemma {:induction false} DistinctCount<T>(xs: seq<T>, x: T)
    requires Distinct(xs)
    ensures multiset(xs)[x] <= 1
  {
    if xs != [] {
      var tail := xs[1..];
      assert xs == [xs[0]] + tail;
      assert Distinct(tail) by {
        assert forall i :: 0 <= i < |tail| ==> tail[i] == xs[i + 1];
      }
      DistinctCount(tail, x);
      if xs[0] == x {
        assert x !in tail by {
          assert forall i :: 0 <= i < |tail| ==> tail[i] == xs[i + 1];
        }
      }
    }
  }

  lemma RepeatCount<T>(ys: seq<T>, i: nat, j: nat)
    requires i < j < |ys| && ys[i] == ys[j]
    ensures multiset(ys)[ys[i]] >= 2
  {
    assert ys == ys[..j] + [ys[j]] + ys[j + 1..];
    assert ys[..j][i] == ys[i];
  }

  /** A rearrangement of a sequence without repeats has no repeats. */
  lemma DistinctPermutation<T>(xs: seq<T>, ys: seq<T>)
    requires multiset(xs) == multiset(ys) && Distinct(xs)
    ensures Distinct(ys)
  {
    forall i, j | 0 <= i < j < |ys|
      ensures ys[i] != ys[j]
    {
      if ys[i] == ys[j] {
        RepeatCount(ys, i, j);
        DistinctCount(xs, ys[i]);
      }
    }
  }

  // ---------------------------------------------------------------- the months

  /** The `.filter((v) => v)` of the read: null and the empty string are dropped. */
  function Present(rows: seq<Option<string>>): (r: seq<string>)
    ensures forall s :: s in r <==> Some(s) in rows && s != ""
  {
    if rows == [] then []
    else
      var p := Present(rows[..|rows| - 1]);
      assert rows == rows[..|rows| - 1] + [rows[|rows| - 1]];
      match rows[|rows| - 1]
      case Some(s) => if s != "" then p + [s] else p
      case None => p
  }

  function Itself(s: string): string {
    s
  }

  function ChoiceValue(c: Choice): string {
    c.value
  }

  /** `monthsRaw` after `monthsRaw.sort()`. */
  function Months(rows: seq<Option<string>>): seq<string> {
    SortBy(Present(rows), Itself)
  }

  function MonthChoice(m: string): Choice {
    Choice(m, m)
  }

  /** A month text the year loop keeps: six characters or more, and `parseInt` of what
      follows the first four gives a number. */
  predicate IsMonthText(m: string) {
    |m| >= 6 && ParseInt(m[4..]).Some?
  }

  function MonthNum(m: string): int
    requires IsMonthText(m)
  {
    ParseInt(m[4..]).value
  }

  /** The keys of `yearMap` in the order they were first set. */
  function Years(ms: seq<string>): seq<string> {
    if ms == [] then []
    else
      var p := Years(ms[..|ms| - 1]);
      var m := ms[|ms| - 1];
      if IsMonthText(m) && m[..4] !in p then p + [m[..4]] else p
  }

  /** `yearMap.get(y)`: the month numbers of year `y`, in the order they were pushed. */
  function Nums(ms: seq<string>, y: string): seq<int> {
    if ms == [] then []
    else
      var m := ms[|ms| - 1];
      Nums(ms[..|ms| - 1], y) + (if IsMonthText(m) && m[..4] == y then [MonthNum(m)] else [])
  }

  /** A year is a key exactly when one of the months kept begins with it; no key twice. */
  lemma {:induction false} YearsSpec(ms: seq<string>)
    ensures forall y :: y in Years(ms) <==> exists m :: m in ms && IsMonthText(m) && m[..4] == y
    ensures Distinct(Years(ms))
  {
    if ms != [] {
      var init := ms[..|ms| - 1];
      YearsSpec(init);
      assert ms == init + [ms[|ms| - 1]];
    }
  }

  /** A number is pushed for year `y` exactly when a month kept of that year has it. */
  lemma {:induction false} NumsSpec(ms: seq<string>, y: string)
    ensures forall v :: v in Nums(ms, y) <==>
              exists m :: m in ms && IsMonthText(m) && m[..4] == y && MonthNum(m) == v
  {
    if ms != [] {
      var init := ms[..|ms| - 1];
      NumsSpec(init, y);
      assert ms == init + [ms[|ms| - 1]];
    }
  }

  /** A year that is not a key has had nothing pushed. */
  lemma {:induction false} NumsOfNewYear(ms: seq<string>, y: string)
    requires y !in Years(ms)
    ensures Nums(ms, y) == []
  {
    if ms != [] {
      NumsOfNewYear(ms[..|ms| - 1], y);
    }
  }

  // ---------------------------------------------------------------- the choices

  function FyChoice(y: string): Choice {
    Choice(y, y + " 财年")
  }

  function H1Choice(y: string): Choice {
    Choice(y + "H1", y + " 上半年")
  }

  function H2Choice(y: string): Choice {
    Choice(y + "H2", y + " 下半年")
  }

  /** `nums.some((v) => v >= lo && v <= hi)`. */
  predicate HasBetween(nums: seq<int>, lo: int, hi: int) {
    exists v :: v in nums && lo <= v <= hi
  }

  /** The fiscal-year choices pushed for the keys, in key order. */
  function FyChoices(ys: seq<string>): (r: seq<Choice>)
    ensures |r| == |ys|
  {
    if ys == [] then [] else FyChoices(ys[..|ys| - 1]) + [FyChoice(ys[|ys| - 1])]
  }

  /** The half-year choices one year contributes. */
  function HalfChoicesOf(y: string, nums: seq<int>): seq<Choice> {
    (if HasBetween(nums, 1, 6) then [H1Choice(y)] else [])
    + (if HasBetween(nums, 7, 12) then [H2Choice(y)] else [])
  }

  /** The half-year choices pushed for the keys, in key order. */
  function HalfChoices(ys: seq<string>, ms: seq<string>): seq<Choice> {
    if ys == [] then []
    else
      var y := ys[|ys| - 1];
      HalfChoices(ys[..|ys| - 1], ms) + HalfChoicesOf(y, Nums(ms, y))
  }

  /** The year a half-year value names: all but its last two characters. */
  function HalfYear(c: Choice): string
    requires |c.value| >= 2
  {
    c.value[..|c.value| - 2]
  }

  /** A choice of the form "<y>H1" / "<y> 上半年" or "<y>H2" / "<y> 下半年". */
  predicate IsHalfChoice(c: Choice) {
    |c.value| >= 2 && (c == H1Choice(HalfYear(c)) || c == H2Choice(HalfYear(c)))
  }

  /** A half-year choice names its year, and the two halves differ. */
  lemma HalfChoiceParts(y: string)
    ensures IsHalfChoice(H1Choice(y)) && HalfYear(H1Choice(y)) == y
    ensures IsHalfChoice(H2Choice(y)) && HalfYear(H2Choice(y)) == y
    ensures H1Choice(y).value != H2Choice(y).value
  {
    var h1, h2 := H1Choice(y).value, H2Choice(y).value;
    assert h1[..|y|] == y && h2[..|y|] == y;
    assert h1[|y| + 1] == '1' && h2[|y| + 1] == '2';
  }

  /** Every half-year choice pushed is one of a key. */
  lemma {:induction false} HalfChoicesShape(ys: seq<string>, ms: seq<string>)
    ensures forall c :: c in HalfChoices(ys, ms) ==> IsHalfChoice(c) && HalfYear(c) in ys
  {
    if ys != [] {
      var init, y := ys[..|ys| - 1], ys[|ys| - 1];
      HalfChoicesShape(init, ms);
      HalfChoiceParts(y);
      assert forall c :: c in init ==> c in ys;
    }
  }

  /** Key `y` gives "<y>H1" exactly when one of its month numbers is from 1 to 6, and
      "<y>H2" exactly when one is from 7 to 12. */
  lemma {:induction false} HalfChoicesMembers(ys: seq<string>, ms: seq<string>, y: string)
    ensures H1Choice(y) in HalfChoices(ys, ms) <==> y in ys && HasBetween(Nums(ms, y), 1, 6)
    ensures H2Choice(y) in HalfChoices(ys, ms) <==> y in ys && HasBetween(Nums(ms, y), 7, 12)
  {
    if ys != [] {
      var init, last := ys[..|ys| - 1], ys[|ys| - 1];
      assert ys == init + [last];
      HalfChoicesMembers(init, ms, y);
      HalfChoiceParts(y);
      HalfChoiceParts(last);
    }
  }

  /** No half-year choice is pushed twice when no key repeats. */
  lemma {:induction false} HalfChoicesDistinct(ys: seq<string>, ms: seq<string>)
    requires Distinct(ys)
    ensures Distinct(HalfChoices(ys, ms))
  {
    if ys != [] {
      var init, y := ys[..|ys| - 1], ys[|ys| - 1];
      assert ys == init + [y];
      assert Distinct(init) && y !in init;
      HalfChoicesDistinct(init, ms);
      HalfChoicesShape(init, ms);
      HalfChoiceParts(y);
      var before, own := HalfChoices(init, ms), HalfChoicesOf(y, Nums(ms, y));
      forall i, j | 0 <= i < j < |before + own|
        ensures (before + own)[i] != (before + own)[j]
      {
        if i < |before| <= j {
          assert before[i] in before;
          assert HalfYear(before[i]) in init;
        }
      }
    }
  }

  /** The options for a read, as `getTimeOptions` builds them. */
  function TimeOptionsOf(rows: seq<Option<string>>): Options {
    var ms := Months(rows);
    var ys := Years(ms);
    Options(MonthChoices(ms), SortBy(HalfChoices(ys, ms), ChoiceValue), SortBy(FyChoices(ys), ChoiceValue))
  }

  function MonthChoices(ms: seq<string>): (r: seq<Choice>)
    ensures |r| == |ms| && forall i :: 0 <= i < |ms| ==> r[i] == MonthChoice(ms[i])
  {
    if ms == [] then [] else MonthChoices(ms[..|ms| - 1]) + [MonthChoice(ms[|ms| - 1])]
  }

  // ---------------------------------------------------------------- getTimeOptions

  /** The first loop of `getTimeOptions`: each month text is filed under its first four
      characters, keys in the order first seen, numbers in the order met. */
  method GroupByYear(ms: seq<string>) returns (keys: seq<string>, yearMap: map<string, seq<int>>)
    ensures keys == Years(ms)
    ensures forall y :: y in yearMap <==> y in keys
    ensures forall y :: y in yearMap ==> yearMap[y] == Nums(ms, y)
  {
    keys, yearMap := [], map[];
    for i := 0 to |ms|
      invariant Grouped(ms[..i], keys, yearMap)
    {
      var m := ms[i];
      if |m| >= 6 {
        var year := m[..4];
        var monthNum := ParseInt(m[4..]);
        if monthNum.Some? {
          FileMonth(ms, i, keys, yearMap, year, if year in yearMap then yearMap[year] else []);
          if year !in yearMap {
            keys := keys + [year];
            yearMap := yearMap[year := []];
          }
          yearMap := yearMap[year := yearMap[year] + [monthNum.value]];
        } else {
          SkipMonth(ms, i, keys, yearMap);
        }
      } else {
        SkipMonth(ms, i, keys, yearMap);
      }
    }
    assert ms[..|ms|] == ms;
  }

  /** The state of the first loop after the months `ms`. */
  ghost predicate Grouped(ms: seq<string>, keys: seq<string>, yearMap: map<string, seq<int>>) {
    && keys == Years(ms)
    && (forall y :: y in yearMap <==> y in keys)
    && (forall y :: y in yearMap ==> yearMap[y] == Nums(ms, y))
  }

  /** A month the loop keeps is filed under its year `y`, which becomes a key if it was not
      one; `nums` is what the year held before. */
  lemma FileMonth(ms: seq<string>, i: nat, keys: seq<string>, yearMap: map<string, seq<int>>,
                  y: string, nums: seq<int>)
    requires i < |ms| && IsMonthText(ms[i]) && Grouped(ms[..i], keys, yearMap)
    requires y == ms[i][..4] && nums == (if y in yearMap then yearMap[y] else [])
    ensures Grouped(ms[..i + 1], if y in yearMap then keys else keys + [y], yearMap[y := nums + [MonthNum(ms[i])]])
  {
    var m, p, q := ms[i], ms[..i], ms[..i + 1];
    assert q[..|q| - 1] == p && q[|q| - 1] == m;
    if y !in yearMap {
      NumsOfNewYear(p, y);
    }
    var keys' := if y in yearMap then keys else keys + [y];
    var yearMap' := yearMap[y := nums + [MonthNum(m)]];
    assert keys' == Years(q) by {
      assert Years(q) == if y in Years(p) then Years(p) else Years(p) + [y];
    }
    assert forall z :: z in yearMap' <==> z in keys';
    forall z | z in yearMap'
      ensures yearMap'[z] == Nums(q, z)
    {
      assert Nums(q, z) == Nums(p, z) + (if z == y then [MonthNum(m)] else []);
    }
    assert Grouped(q, keys', yearMap');
  }

  /** A month the loop skips changes nothing. */
  lemma SkipMonth(ms: seq<string>, i: nat, keys: seq<string>, yearMap: map<string, seq<int>>)
    requires i < |ms| && !IsMonthText(ms[i]) && Grouped(ms[..i], keys, yearMap)
    ensures Grouped(ms[..i + 1], keys, yearMap)
  {
    assert ms[..i + 1][..i] == ms[..i];
  }

  /** `getTimeOptions`, with the table read as its input. */
  method GetTimeOptions(rows: seq<Option<string>>) returns (opts: Options)
    ensures opts == TimeOptionsOf(rows)
  {
    var ms := Months(rows);
    var keys, yearMap := GroupByYear(ms);
    var fy, half := YearChoices(keys, yearMap, ms);
    opts := Options(MonthChoices(ms), SortBy(half, ChoiceValue), SortBy(fy, ChoiceValue));
  }

  /** What one more key adds to the choices pushed. */
  lemma ChoicesStep(keys: seq<string>, j: nat, ms: seq<string>)
    requires j < |keys|
    ensures FyChoices(keys[..j + 1]) == FyChoices(keys[..j]) + [FyChoice(keys[j])]
    ensures HalfChoices(keys[..j + 1], ms) == HalfChoices(keys[..j], ms) + HalfChoicesOf(keys[j], Nums(ms, keys[j]))
  {
    assert keys[..j + 1][..j] == keys[..j] && keys[..j + 1][j] == keys[j];
  }

  /** The second loop of `getTimeOptions`: for each key in order, its fiscal-year choice,
      then "H1" when one of its numbers is from 1 to 6 and "H2" when one is from 7 to 12. */
  method YearChoices(keys: seq<string>, yearMap: map<string, seq<int>>, ghost ms: seq<string>)
    returns (fy: seq<Choice>, half: seq<Choice>)
    requires forall y :: y in keys ==> y in yearMap && yearMap[y] == Nums(ms, y)
    ensures fy == FyChoices(keys)
    ensures half == HalfChoices(keys, ms)
  {
    fy, half := [], [];
    for j := 0 to |keys|
      invariant fy == FyChoices(keys[..j])
      invariant half == HalfChoices(keys[..j], ms)
    {
      var year := keys[j];
      ChoicesStep(keys, j, ms);
      fy := fy + [FyChoice(year)];
      var monthNums := yearMap[year];
      var hasH1 := HasBetween(monthNums, 1, 6);
      var hasH2 := HasBetween(monthNums, 7, 12);
      ghost var before := half;
      if hasH1 {
        half := half + [H1Choice(year)];
      }
      if hasH2 {
        half := half + [H2Choice(year)];
      }
      assert half == before + HalfChoicesOf(year, Nums(ms, year)) by {
        if hasH1 && hasH2 {
          assert before + [H1Choice(year)] + [H2Choice(year)] == before + ([H1Choice(year)] + [H2Choice(year)]);
        }
      }
    }
    assert keys[..|keys|] == keys;
  }

  // ---------------------------------------------------------------- what they offer

  /** A rearrangement holds the same elements. */
  lemma PermutedMembers<T>(xs: seq<T>, ys: seq<T>)
    requires multiset(xs) == multiset(ys)
    ensures forall x :: x in xs <==> x in ys
  {
    assert forall x :: x in xs <==> x in multiset(xs);
    assert forall x :: x in ys <==> x in multiset(ys);
  }

  /** The months sorted are the non-empty values read. */
  lemma MonthsMembers(rows: seq<Option<string>>)
    ensures forall m :: m in Months(rows) <==> Some(m) in rows && m != ""
  {
    PermutedMembers(Present(rows), Months(rows));
  }

  /** The years of the sorted months are those of the values read. */
  lemma KeptYears(rows: seq<Option<string>>, y: string)
    ensures y in Years(Months(rows)) <==> exists m :: Some(m) in rows && IsMonthText(m) && m[..4] == y
  {
    MonthsMembers(rows);
    YearsSpec(Months(rows));
  }

  lemma {:induction false} FyChoicesAt(ys: seq<string>)
    ensures forall i :: 0 <= i < |ys| ==> FyChoices(ys)[i] == FyChoice(ys[i])
  {
    if ys != [] {
      FyChoicesAt(ys[..|ys| - 1]);
    }
  }

  lemma {:induction false} FyChoicesMembers(ys: seq<string>)
    ensures forall c :: c in FyChoices(ys) ==> c == FyChoice(c.value)
    ensures forall y :: FyChoice(y) in FyChoices(ys) <==> y in ys
    ensures Distinct(ys) ==> Distinct(FyChoices(ys))
  {
    var cs := FyChoices(ys);
    FyChoicesAt(ys);
    assert forall c :: c in cs ==> exists i :: 0 <= i < |ys| && c == cs[i] && c == FyChoice(ys[i]);
    forall y
      ensures FyChoice(y) in cs <==> y in ys
    {
      if y in ys {
        var i :| 0 <= i < |ys| && ys[i] == y;
        assert cs[i] == FyChoice(y);
      }
    }
    if Distinct(ys) {
      assert forall i, j :: 0 <= i < j < |cs| ==> cs[i].value == ys[i] && cs[j].value == ys[j];
    }
  }

  /** The month choices are the non-empty values read, each labelled by itself, in
      ascending order, with repeats kept. */
  lemma MonthOptions(rows: seq<Option<string>>)
    ensures var ms := TimeOptionsOf(rows).month;
            SortedBy(ms, ChoiceValue)
            && (forall c :: c in ms ==> c == MonthChoice(c.value))
            && (forall m :: MonthChoice(m) in ms <==> Some(m) in rows && m != "")
  {
    var ms := Months(rows);
    var cs := TimeOptionsOf(rows).month;
    SortBySorted(Present(rows), Itself);
    MonthsMembers(rows);
    forall m
      ensures MonthChoice(m) in cs <==> m in ms
    {
      if MonthChoice(m) in cs {
        var i :| 0 <= i < |cs| && cs[i] == MonthChoice(m);
        assert ms[i] == m;
      }
      if m in ms {
        var i :| 0 <= i < |ms| && ms[i] == m;
        assert cs[i] == MonthChoice(m);
      }
    }
  }

  /** A year is offered as a fiscal year exactly when some value read begins with it and
      is a month text; each year once, in ascending order, labelled "<year> 财年". */
  lemma FyOptions(rows: seq<Option<string>>)
    ensures var fy := TimeOptionsOf(rows).fy;
            SortedBy(fy, ChoiceValue)
            && (forall i, j :: 0 <= i < j < |fy| ==> fy[i].value != fy[j].value)
            && (forall c :: c in fy ==> c == FyChoice(c.value))
            && (forall y :: FyChoice(y) in fy <==>
                  exists m :: Some(m) in rows && IsMonthText(m) && m[..4] == y)
  {
    var ys := Years(Months(rows));
    var fy := TimeOptionsOf(rows).fy;
    assert fy == SortBy(FyChoices(ys), ChoiceValue);
    SortBySorted(FyChoices(ys), ChoiceValue);
    YearsSpec(Months(rows));
    FySorted(ys, fy);
    forall y
      ensures FyChoice(y) in fy <==> exists m :: Some(m) in rows && IsMonthText(m) && m[..4] == y
    {
      KeptYears(rows, y);
    }
  }

  /** The fiscal-year choices of keys without repeats, rearranged: one per key, no value
      twice. */
  lemma FySorted(ys: seq<string>, fy: seq<Choice>)
    requires Distinct(ys) && multiset(fy) == multiset(FyChoices(ys))
    ensures forall i, j :: 0 <= i < j < |fy| ==> fy[i].value != fy[j].value
    ensures forall c :: c in fy ==> c == FyChoice(c.value)
    ensures forall y :: FyChoice(y) in fy <==> y in ys
  {
    var pushed := FyChoices(ys);
    FyChoicesMembers(ys);
    PermutedMembers(pushed, fy);
    DistinctPermutation(pushed, fy);
    forall i, j | 0 <= i < j < |fy|
      ensures fy[i].value != fy[j].value
    {
      assert fy[i] in fy && fy[j] in fy;
    }
  }

  /** Year `y` is offered as "<y>H1" exactly when some month text of that year has a month
      number from 1 to 6, and as "<y>H2" exactly when one has 7 to 12; each choice once, in
      ascending order. */
  lemma HalfFyOptions(rows: seq<Option<string>>)
    ensures var half := TimeOptionsOf(rows).halfFy;
            SortedBy(half, ChoiceValue)
            && (forall i, j :: 0 <= i < j < |half| ==> half[i].value != half[j].value)
            && (forall c :: c in half ==> IsHalfChoice(c))
            && (forall y :: H1Choice(y) in half <==>
                  exists m :: Some(m) in rows && IsMonthText(m) && m[..4] == y && 1 <= MonthNum(m) <= 6)
            && (forall y :: H2Choice(y) in half <==>
                  exists m :: Some(m) in rows && IsMonthText(m) && m[..4] == y && 7 <= MonthNum(m) <= 12)
  {
    var ms := Months(rows);
    var ys := Years(ms);
    var pushed := HalfChoices(ys, ms);
    var half := TimeOptionsOf(rows).halfFy;
    SortBySorted(pushed, ChoiceValue);
    YearsSpec(ms);
    HalfChoicesShape(ys, ms);
    HalfChoicesDistinct(ys, ms);
    PermutedMembers(pushed, half);
    DistinctPermutation(pushed, half);
    HalfValuesDistinct(half);
    forall y
      ensures H1Choice(y) in half <==> exists m :: Some(m) in rows && IsMonthText(m) && m[..4] == y && 1 <= MonthNum(m) <= 6
      ensures H2Choice(y) in half <==> exists m :: Some(m) in rows && IsMonthText(m) && m[..4] == y && 7 <= MonthNum(m) <= 12
    {
      HalfChoicesMembers(ys, ms, y);
      HalfYearMembers(rows, y, 1, 6);
      HalfYearMembers(rows, y, 7, 12);
    }
  }

  /** Half-year choices that differ have different values. */
  lemma HalfValuesDistinct(half: seq<Choice>)
    requires Distinct(half) && forall c :: c in half ==> IsHalfChoice(c)
    ensures forall i, j :: 0 <= i < j < |half| ==> half[i].value != half[j].value
  {
    forall i, j | 0 <= i < j < |half|
      ensures half[i].value != half[j].value
    {
      var a, b := half[i], half[j];
      assert a in half && b in half;
      if a.value == b.value {
        HalfChoiceParts(HalfYear(a));
      }
    }
  }

  /** A year has a month number from `lo` to `hi` among the values read exactly when it
      is a key whose pushed numbers have one there. */
  lemma HalfYearMembers(rows: seq<Option<string>>, y: string, lo: int, hi: int)
    ensures var ms := Months(rows);
            (y in Years(ms) && HasBetween(Nums(ms, y), lo, hi))
            <==> exists m :: Some(m) in rows && IsMonthText(m) && m[..4] == y && lo <= MonthNum(m) <= hi
  {
    var ms := Months(rows);
    if y in Years(ms) && HasBetween(Nums(ms, y), lo, hi) {
      var v :| v in Nums(ms, y) && lo <= v <= hi;
      NumsSpec(ms, y);
      var m :| m in ms && IsMonthText(m) && m[..4] == y && MonthNum(m) == v;
      MonthsMembers(rows);
      assert Some(m) in rows && IsMonthText(m) && m[..4] == y && lo <= MonthNum(m) <= hi;
    }
    if exists m :: Some(m) in rows && IsMonthText(m) && m[..4] == y && lo <= MonthNum(m) <= hi {
      var m :| Some(m) in rows && IsMonthText(m) && m[..4] == y && lo <= MonthNum(m) <= hi;
      MonthKept(rows, m);
      assert y in Years(ms) && HasBetween(Nums(ms, y), lo, hi);
    }
  }

  /** A month text read is filed under its year with its number. */
  lemma MonthKept(rows: seq<Option<string>>, m: string)
    requires Some(m) in rows && IsMonthText(m)
    ensures m[..4] in Years(Months(rows)) && MonthNum(m) in Nums(Months(rows), m[..4])
  {
    var ms := Months(rows);
    MonthsMembers(rows);
    YearsSpec(ms);
    NumsSpec(ms, m[..4]);
    assert m in ms;
  }

}
