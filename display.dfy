/** The SQL text shown to the user (`formatSqlForDisplay` and `stripWhereStubForDisplay`
    of server.js): parameters are written into the `?` marks in order, then the
    "WHERE 1=1" stub is tidied away. */
module Display {
  import opened Wrappers
  import opened Text
  import opened State
  import opened Patterns

  // ---------------------------------------------------------------- parameters

  /** `String(n)` for any integer. */
  function IntToString(n: int): string {
    if n < 0 then "-" + NatToString(-n) else NatToString(n)
  }

  /** What one parameter turns into: a string in single quotes, a number as its decimal
      text, null as "null". */
  function Render(v: Value): string {
    match v
    case Str(s) => "'" + s + "'"
    case Num(n) => IntToString(n)
    case Null => "null"
  }

  /** The text of every parameter is free of `?` and `$`: it can neither be taken for a
      later mark nor be read as a replacement pattern. */
  predicate PlainParams(params: seq<Value>) {
    forall i :: 0 <= i < |params| ==> '?' !in Render(params[i]) && '$' !in Render(params[i])
  }

  /** The loop of `formatSqlForDisplay`: each parameter replaces the first `?` left. */
  function FormatFrom(s: string, params: seq<Value>): string
    decreases |params|
  {
    if params == [] then s
    else FormatFrom(ReplaceFirst(s, "?", Render(params[0])), params[1..])
  }

  /** The pieces between the marks with the parameters written in between, in order. */
  function Filled(parts: seq<string>, params: seq<Value>): string
    requires |parts| == |params| + 1
  {
    if params == [] then parts[0]
    else parts[0] + Render(params[0]) + Filled(parts[1..], params[1..])
  }

  /** A stretch before the first mark is left alone by a replacement. */
  lemma ReplaceAfterPrefix(pre: string, s: string, repl: string)
    requires '?' !in pre && '$' !in repl
    ensures ReplaceFirst(pre + s, "?", repl) == pre + ReplaceFirst(s, "?", repl)
  {
    IndexFromSkip(pre, s, "?");
    match IndexFrom(s, "?", 0)
    case None =>
    case Some(k) =>
      ReplaceFirstAt(pre + s, "?", repl, |pre| + k);
      ReplaceFirstAt(s, "?", repl, k);
      assert (pre + s)[..|pre| + k] == pre + s[..k];
      assert (pre + s)[|pre| + k + 1..] == s[k + 1..];
  }

  lemma {:induction false} FormatAfterPrefix(pre: string, s: string, params: seq<Value>)
    requires '?' !in pre && PlainParams(params)
    ensures FormatFrom(pre + s, params) == pre + FormatFrom(s, params)
    decreases |params|
  {
    if params != [] {
      ReplaceAfterPrefix(pre, s, Render(params[0]));
      assert PlainParams(params[1..]) by {
        assert forall i :: 0 <= i < |params[1..]| ==> params[1..][i] == params[i + 1];
      }
      FormatAfterPrefix(pre, ReplaceFirst(s, "?", Render(params[0])), params[1..]);
    }
  }

  /** Writing the parameters into a text joined from mark-free pieces puts parameter `i`
      between piece `i` and piece `i + 1`. */
  lemma {:induction false} FormatJoined(parts: seq<string>, params: seq<Value>)
    requires |parts| == |params| + 1
    requires forall i :: 0 <= i < |parts| ==> '?' !in parts[i]
    requires PlainParams(params)
    ensures FormatFrom(JoinWith(parts, '?'), params) == Filled(parts, params)
    decreases |params|
  {
    if params != [] {
      var r := Render(params[0]);
      var rest := JoinWith(parts[1..], '?');
      assert JoinWith(parts, '?') == parts[0] + "?" + rest;
      ReplaceFirstUnique(parts[0], "?", rest, r);
      assert PlainParams(params[1..]) by {
        assert forall i :: 0 <= i < |params[1..]| ==> params[1..][i] == params[i + 1];
      }
      assert '?' !in parts[0] + r;
      FormatAfterPrefix(parts[0] + r, rest, params[1..]);
      FormatJoined(parts[1..], params[1..]);
    }
  }

  /** When the text has exactly as many `?` as there are parameters, parameter `i` lands
      in mark `i`: the result is the text's pieces between marks with the parameters in
      between, in order. */
  lemma FormatFillsMarks(sql: string, params: seq<Value>)
    requires CountChar(sql, '?') == |params| && PlainParams(params)
    ensures |SplitOn(sql, '?')| == |params| + 1
    ensures FormatFrom(sql, params) == Filled(SplitOn(sql, '?'), params)
  {
    SplitCount(sql, '?');
    SplitJoin(sql, '?');
    FormatJoined(SplitOn(sql, '?'), params);
  }

  /** No mark is left over once every mark has had its parameter. */
  lemma {:induction false} FilledMarkFree(parts: seq<string>, params: seq<Value>)
    requires |parts| == |params| + 1
    requires forall i :: 0 <= i < |parts| ==> '?' !in parts[i]
    requires PlainParams(params)
    ensures '?' !in Filled(parts, params)
    decreases |params|
  {
    if params != [] {
      assert PlainParams(params[1..]) by {
        assert forall i :: 0 <= i < |params[1..]| ==> params[1..][i] == params[i + 1];
      }
      FilledMarkFree(parts[1..], params[1..]);
    }
  }

  // ---------------------------------------------------------------- the stub

  /** `stripWhereStubForDisplay`. */
  function StripWhereStub(sql: string): string {
    ReplacePattern(StubAlone, ReplacePattern(StubAnd, sql, "WHERE "), "")
  }

  /** The text `formatSqlForDisplay` returns: parameters written in, stub tidied away. */
  function DisplaySql(sql: string, params: seq<Value>): string {
    StripWhereStub(FormatFrom(sql, params))
  }

  /** `formatSqlForDisplay`. */
  method FormatSqlForDisplay(sql: string, params: seq<Value>) returns (shown: string)
    ensures shown == DisplaySql(sql, params)
  {
    var formatted := sql;
    for i := 0 to |params|
      invariant FormatFrom(formatted, params[i..]) == FormatFrom(sql, params)
    {
      assert params[i..][0] == params[i] && params[i..][1..] == params[i + 1..];
      formatted := ReplaceFirst(formatted, "?", Render(params[i]));
    }
    assert params[|params|..] == [];
    shown := StripWhereStub(formatted);
  }

  /** A text in which neither pattern matches is shown as it is. */
  lemma StripNothing(s: string)
    requires forall j :: MatchAt(StubAnd, s, j).None? && MatchAt(StubAlone, s, j).None?
    ensures StripWhereStub(s) == s
  {
    ReplaceNothing(StubAnd, s, "WHERE ");
    ReplaceNothing(StubAlone, s, "");
  }

  /** "WHERE 1=1 AND " followed by a condition becomes "WHERE " followed by that condition,
      when it is the first stub in the text and the text that results holds no stub. */
  lemma StripStubAnd(head: string, rest: string)
    requires head == [] || !IsWordChar(head[|head| - 1])
    requires rest == [] || !IsSpace(rest[0])
    requires forall j :: 0 <= j < |head| ==> MatchAt(StubAnd, head + "WHERE 1=1 AND " + rest, j).None?
    requires forall j :: MatchAt(StubAlone, head + "WHERE " + rest, j).None?
    ensures StripWhereStub(head + "WHERE 1=1 AND " + rest) == head + "WHERE " + rest
  {
    var s := head + "WHERE 1=1 AND " + rest;
    var k := |head|;
    StubAndLayout(head, rest);
    StubAndMatch(s, k);
    FirstMatchIs(StubAnd, s, 0, k, k + 14);
    ReplaceMatch(StubAnd, s, "WHERE ", k, k + 14);
    ReplaceNothing(StubAlone, head + "WHERE " + rest, "");
  }

  /** Where the characters of "WHERE 1=1 AND " sit once it is placed after `head`. */
  lemma StubAndLayout(head: string, rest: string)
    requires head == [] || !IsWordChar(head[|head| - 1])
    requires rest == [] || !IsSpace(rest[0])
    ensures var s, k := head + "WHERE 1=1 AND " + rest, |head|;
      StubAt(s, k) && k + 14 <= |s| && s[k + 9] == ' ' && s[k + 10..k + 13] == "AND"
      && s[k + 13] == ' ' && (k + 14 == |s| || !IsSpace(s[k + 14]))
      && s[..k] + "WHERE " + s[k + 14..] == head + "WHERE " + rest
  {
    var lit := "WHERE 1=1 AND ";
    var s := head + lit + rest;
    var k := |head|;
    assert s[k..k + 14] == lit;
    assert lit[..5] == "WHERE" && lit[6..9] == "1=1" && lit[10..13] == "AND";
    assert s[..k] == head && s[k + 14..] == rest;
  }

  /** A trailing "WHERE 1=1" is dropped. */
  lemma StripStubAtEnd(head: string)
    requires head == [] || !IsWordChar(head[|head| - 1])
    requires forall j :: MatchAt(StubAnd, head + "WHERE 1=1", j).None?
    requires forall j :: 0 <= j < |head| ==> MatchAt(StubAlone, head + "WHERE 1=1", j).None?
    ensures StripWhereStub(head + "WHERE 1=1") == head
  {
    var lit := "WHERE 1=1";
    var s := head + lit;
    var k := |head|;
    assert s[k..] == lit;
    assert lit[..5] == "WHERE" && lit[6..9] == "1=1";
    StubAloneMatch(s, k);
    ReplaceNothing(StubAnd, s, "WHERE ");
    FirstMatchIs(StubAlone, s, 0, k, k + 9);
    ReplaceMatch(StubAlone, s, "", k, k + 9);
    assert s[..k] == head;
  }

}
