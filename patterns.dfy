/** The three regular expressions of server.js that rewrite SQL text, matched by hand:
    `\bWHERE\s+1=1\s+AND\s+` and `\bWHERE\s+1=1\b\s*` of `stripWhereStubForDisplay`, and
    `SELECT\s+COUNT\(\*\)\s+AS\s+value` of the chart path, all with the `i` flag. */
module Patterns {
  import opened Wrappers
  import opened Text

  /** `StubAnd` and `StubAlone` are the two patterns of `stripWhereStubForDisplay`;
      `CountSelect` is the select the chart path rewrites. */
  datatype Pattern = StubAnd | StubAlone | CountSelect

  /** `s[i..]` starts with the lower-case ASCII word `w`, ignoring ASCII case. */
  predicate WordAt(s: string, i: nat, w: string) {
    i + |w| <= |s| && Lower(s[i..i + |w|]) == w
  }

  /** White space starting at `i` (what a greedy `\s*` takes). */
  function SpacesAt(s: string, i: nat): (n: nat)
    ensures n > 0 ==> i + n <= |s|
    decreases |s| - i
  {
    if i < |s| && IsSpace(s[i]) then 1 + SpacesAt(s, i + 1) else 0
  }

  /** `\b` before a word character at `i`. */
  predicate BoundaryBefore(s: string, i: nat) {
    i == 0 || (i <= |s| && !IsWordChar(s[i - 1]))
  }

  /** Where a match of the pattern that starts at `i` ends, if one does. */
  function MatchAt(p: Pattern, s: string, i: nat): (r: Option<nat>)
    ensures r.Some? ==> i < r.value <= |s|
  {
    match p
    case CountSelect => CountSelectAt(s, i)
    case StubAnd => StubMatchAt(false, s, i)
    case StubAlone => StubMatchAt(true, s, i)
  }

  /** The two stub patterns (`alone` for the second). The `\s+` runs are greedy, and no
      shorter run could let the rest match, since what follows each run starts with a
      character that is not white space. */
  function StubMatchAt(alone: bool, s: string, i: nat): (r: Option<nat>)
    ensures r.Some? ==> i < r.value <= |s|
  {
    if !(BoundaryBefore(s, i) && WordAt(s, i, "where")) then None
    else
      var a := i + 5;
      var n1 := SpacesAt(s, a);
      var b := a + n1;
      if n1 == 0 || !OccursAt(s, "1=1", b) then None
      else
        var c := b + 3;
        var n2 := SpacesAt(s, c);
        if alone then
          if c < |s| && IsWordChar(s[c]) then None else Some(c + n2)
        else
          var d := c + n2;
          if n2 == 0 || !WordAt(s, d, "and") then None
          else
            var e := d + 3;
            var n3 := SpacesAt(s, e);
            if n3 == 0 then None else Some(e + n3)
  }

  /** `SELECT\s+COUNT\(\*\)\s+AS\s+value`, with no word boundary on either side. */
  function CountSelectAt(s: string, i: nat): (r: Option<nat>)
    ensures r.Some? ==> i < r.value <= |s|
  {
    if !WordAt(s, i, "select") then None
    else
      var n1 := SpacesAt(s, i + 6);
      var b := i + 6 + n1;
      if n1 == 0 || !WordAt(s, b, "count(*)") then None
      else
        var n2 := SpacesAt(s, b + 8);
        var c := b + 8 + n2;
        if n2 == 0 || !WordAt(s, c, "as") then None
        else
          var n3 := SpacesAt(s, c + 2);
          var d := c + 2 + n3;
          if n3 == 0 || !WordAt(s, d, "value") then None else Some(d + 5)
  }

  /** The leftmost match at or after `i`, as its start and end. */
  function FirstMatch(p: Pattern, s: string, i: nat): (r: Option<(nat, nat)>)
    ensures r.Some? ==> i <= r.value.0 < r.value.1 <= |s|
    decreases |s| - i
  {
    if i >= |s| then None
    else match MatchAt(p, s, i)
      case Some(e) => Some((i, e))
      case None => FirstMatch(p, s, i + 1)
  }

  /** `FirstMatch` finds a match, and no match starts before the one it finds. */
  lemma {:induction false} FirstMatchLeftmost(p: Pattern, s: string, i: nat)
    ensures var r := FirstMatch(p, s, i);
            r.Some? ==> MatchAt(p, s, r.value.0) == Some(r.value.1)
                        && forall j :: i <= j < r.value.0 ==> MatchAt(p, s, j).None?
    decreases |s| - i
  {
    if i < |s| && MatchAt(p, s, i).None? {
      FirstMatchLeftmost(p, s, i + 1);
    }
  }

  /** `s.replace(regex, repl)` without the `g` flag: the leftmost match only, with the
      replacement's `$` patterns expanded. */
  function ReplacePattern(p: Pattern, s: string, repl: string): string {
    match FirstMatch(p, s, 0)
    case None => s
    case Some((k, e)) => s[..k] + Expand(repl, s[..k], s[k..e], s[e..]) + s[e..]
  }

  /** With a replacement that holds no `$`, the leftmost match is replaced verbatim. */
  lemma ReplaceMatch(p: Pattern, s: string, repl: string, k: nat, e: nat)
    requires FirstMatch(p, s, 0) == Some((k, e)) && '$' !in repl
    ensures ReplacePattern(p, s, repl) == s[..k] + repl + s[e..]
  {
    ExpandPlain(repl, s[..k], s[k..e], s[e..]);
  }

  /** The leftmost match is the one at `k` when there is none between `i` and `k`. */
  lemma {:induction false} FirstMatchIs(p: Pattern, s: string, i: nat, k: nat, e: nat)
    requires i <= k && MatchAt(p, s, k) == Some(e)
    requires forall j :: i <= j < k ==> MatchAt(p, s, j).None?
    ensures FirstMatch(p, s, i) == Some((k, e))
    decreases k - i
  {
    if i < k {
      FirstMatchIs(p, s, i + 1, k, e);
    }
  }

  /** Where the pattern matches nowhere from `i` on, nothing is found. */
  lemma {:induction false} FirstMatchNone(p: Pattern, s: string, i: nat)
    requires forall j :: i <= j ==> MatchAt(p, s, j).None?
    ensures FirstMatch(p, s, i).None?
    decreases |s| - i
  {
    if i < |s| {
      FirstMatchNone(p, s, i + 1);
    }
  }

  /** A text in which the pattern matches nowhere is left as it is. */
  lemma ReplaceNothing(p: Pattern, s: string, repl: string)
    requires forall j :: MatchAt(p, s, j).None?
    ensures ReplacePattern(p, s, repl) == s
  {
    FirstMatchNone(p, s, 0);
  }

  /** "WHERE" at `k` after a boundary, then "1=1" after one space. */
  predicate StubAt(s: string, k: nat) {
    BoundaryBefore(s, k) && k + 9 <= |s| && s[k..k + 5] == "WHERE" && s[k + 5] == ' '
    && s[k + 6..k + 9] == "1=1"
  }

  /** What both patterns share: the text from `k` up to `k + 9`. */
  lemma StubStart(s: string, k: nat)
    requires StubAt(s, k)
    ensures BoundaryBefore(s, k) && WordAt(s, k, "where")
    ensures SpacesAt(s, k + 5) == 1 && OccursAt(s, "1=1", k + 6)
  {
    LowerWhere();
    SpacesOne(s, k + 5);
  }

  /** `WHERE 1=1 AND ` at `k`, followed by the end or a non-space, is a match of the first
      pattern that ends after the space. */
  lemma StubAndMatch(s: string, k: nat)
    requires StubAt(s, k) && k + 14 <= |s| && s[k + 9] == ' ' && s[k + 10..k + 13] == "AND"
    requires s[k + 13] == ' ' && (k + 14 == |s| || !IsSpace(s[k + 14]))
    ensures MatchAt(StubAnd, s, k) == Some(k + 14)
  {
    StubStart(s, k);
    SpacesOne(s, k + 9);
    LowerAnd();
    assert WordAt(s, k + 10, "and");
    SpacesOne(s, k + 13);
  }

  /** `WHERE 1=1` at the very end is a match of the second pattern. */
  lemma StubAloneMatch(s: string, k: nat)
    requires StubAt(s, k) && k + 9 == |s|
    ensures MatchAt(StubAlone, s, k) == Some(k + 9)
  {
    StubStart(s, k);
    assert SpacesAt(s, k + 9) == 0;
  }

  /** "SELECT COUNT(*) AS value" at `k` is a match of the chart pattern. */
  lemma CountSelectMatch(s: string, k: nat)
    requires k + 24 <= |s| && s[k..k + 24] == "SELECT COUNT(*) AS value"
    ensures MatchAt(CountSelect, s, k) == Some(k + 24)
  {
    CountSelectLayout(s, k);
    LowerSelectWord();
    LowerCountWord();
    LowerAsWord();
    LowerValueWord();
    SpacesOne(s, k + 6);
    SpacesOne(s, k + 15);
    SpacesOne(s, k + 18);
  }

  /** Where the words of "SELECT COUNT(*) AS value" sit. */
  lemma CountSelectLayout(s: string, k: nat)
    requires k + 24 <= |s| && s[k..k + 24] == "SELECT COUNT(*) AS value"
    ensures s[k..k + 6] == "SELECT" && s[k + 6] == ' ' && s[k + 7..k + 15] == "COUNT(*)"
    ensures s[k + 15] == ' ' && s[k + 16..k + 18] == "AS" && s[k + 18] == ' '
    ensures s[k + 19..k + 24] == "value"
  {
    CountSelectWords();
    var t := s[k..k + 24];
    assert s[k..k + 6] == t[..6];
    assert forall j :: 0 <= j < 8 ==> s[k + 7..k + 15][j] == t[7..15][j];
    assert forall j :: 0 <= j < 2 ==> s[k + 16..k + 18][j] == t[16..18][j];
    assert s[k + 19..k + 24] == t[19..];
    assert s[k + 6] == t[6] && s[k + 15] == t[15] && s[k + 18] == t[18];
  }

  lemma CountSelectWords()
    ensures var t := "SELECT COUNT(*) AS value";
            t[..6] == "SELECT" && t[7..15] == "COUNT(*)" && t[16..18] == "AS" && t[19..] == "value"
            && t[6] == ' ' && t[15] == ' ' && t[18] == ' '
  {
  }

  /** A text lower-cases to `t` when each of its characters lower-cases to the one of `t`
      in the same place. */
  lemma LowerTo(s: string, t: string)
    requires |s| == |t| && forall i :: 0 <= i < |s| ==> LowerChar(s[i]) == t[i]
    ensures Lower(s) == t
  {
    LowerSpec(s);
  }

  lemma LowerSelectWord()
    ensures Lower("SELECT") == "select"
  {
    LowerTo("SELECT", "select");
  }

  lemma LowerCountWord()
    ensures Lower("COUNT(*)") == "count(*)"
  {
    LowerTo("COUNT(*)", "count(*)");
  }

  lemma LowerAsWord()
    ensures Lower("AS") == "as"
  {
    LowerTo("AS", "as");
  }

  lemma LowerValueWord()
    ensures Lower("value") == "value"
  {
    LowerTo("value", "value");
  }

  lemma LowerWhere()
    ensures Lower("WHERE") == "where"
  {
    LowerTo("WHERE", "where");
  }

  lemma LowerAnd()
    ensures Lower("AND") == "and"
  {
    LowerTo("AND", "and");
  }

  /** Exactly one space starts `s[i..]` when a non-space or the end follows it. */
  lemma SpacesOne(s: string, i: nat)
    requires i < |s| && s[i] == ' ' && (i + 1 == |s| || !IsSpace(s[i + 1]))
    ensures SpacesAt(s, i) == 1
  {
  }
}
