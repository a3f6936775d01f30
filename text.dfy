/** String primitives with the JavaScript semantics the server and the NLU helpers rely on:
    `includes`/`indexOf`, `split`, `trim`, `replace` with a string pattern, `String(n)` and
    `parseInt(s, 10)`. Strings are sequences of characters; case folding is ASCII only. */
module Text {
  import opened Wrappers

  // ---------------------------------------------------------------- characters

  /** JavaScript white space and line terminators: what `\s`, `trim` and `parseInt` skip. */
  predicate IsSpace(c: char) {
    ('\U{9}' <= c <= '\U{D}') || c == ' ' || c == '\U{A0}' || c == '\U{1680}'
    || ('\U{2000}' <= c <= '\U{200A}') || c == '\U{2028}' || c == '\U{2029}'
    || c == '\U{202F}' || c == '\U{205F}' || c == '\U{3000}' || c == '\U{FEFF}'
  }

  /** `\d` of a JavaScript regular expression: ASCII digits only. */
  predicate IsDigit(c: char) {
    '0' <= c <= '9'
  }

  predicate IsAsciiUpper(c: char) {
    'A' <= c <= 'Z'
  }

  predicate IsAsciiAlnum(c: char) {
    'a' <= c <= 'z' || IsAsciiUpper(c) || IsDigit(c)
  }

  /** Word characters of a regular expression's `\b`. */
  predicate IsWordChar(c: char) {
    IsAsciiAlnum(c) || c == '_'
  }

  function LowerChar(c: char): (r: char)
    ensures !IsAsciiUpper(r)
    ensures IsSpace(r) <==> IsSpace(c)
    ensures IsAsciiAlnum(r) <==> IsAsciiAlnum(c)
    ensures !IsAsciiUpper(c) ==> r == c
  {
    if IsAsciiUpper(c) then (c as int + 32) as char else c
  }

  /** `toLowerCase`, restricted to ASCII letters. */
  function Lower(s: string): string {
    if s == [] then [] else [LowerChar(s[0])] + Lower(s[1..])
  }

  /** Lower-casing maps each character on its own. */
  lemma {:induction false} LowerSpec(s: string)
    ensures |Lower(s)| == |s|
    ensures forall i :: 0 <= i < |s| ==> Lower(s)[i] == LowerChar(s[i])
  {
    if s != [] {
      LowerSpec(s[1..]);
      assert forall i :: 1 <= i < |s| ==> Lower(s)[i] == Lower(s[1..])[i - 1];
    }
  }

  /** Lower-casing leaves a string without upper-case ASCII letters as it is. */
  lemma LowerOfLower(s: string)
    requires forall i :: 0 <= i < |s| ==> !IsAsciiUpper(s[i])
    ensures Lower(s) == s
  {
    LowerSpec(s);
  }

  /** Removes every white-space character (`replace(/\s+/g, "")`). */
  function RemoveSpaces(s: string): string {
    if s == [] then []
    else if IsSpace(s[0]) then RemoveSpaces(s[1..])
    else [s[0]] + RemoveSpaces(s[1..])
  }

  /** What is left holds no white space and only characters of the input; a string without
      white space is left as it is. */
  lemma {:induction false} RemoveSpacesSpec(s: string)
    ensures forall i :: 0 <= i < |RemoveSpaces(s)| ==> !IsSpace(RemoveSpaces(s)[i]) && RemoveSpaces(s)[i] in s
    ensures (forall i :: 0 <= i < |s| ==> !IsSpace(s[i])) ==> RemoveSpaces(s) == s
  {
    if s != [] {
      RemoveSpacesSpec(s[1..]);
      var r := RemoveSpaces(s);
      var rest := RemoveSpaces(s[1..]);
      if !IsSpace(s[0]) {
        assert forall i :: 1 <= i < |r| ==> r[i] == rest[i - 1];
      }
      assert forall c :: c in s[1..] ==> c in s;
      if forall i :: 0 <= i < |s| ==> !IsSpace(s[i]) {
        assert forall i :: 0 <= i < |s[1..]| ==> !IsSpace(s[1..][i]);
        assert s == [s[0]] + s[1..];
      }
    }
  }

  // ---------------------------------------------------------------- trimming

  /** Number of white-space characters that start `s`. */
  function LeadingSpaces(s: string): (n: nat)
    ensures n <= |s|
    ensures forall i :: 0 <= i < n ==> IsSpace(s[i])
    ensures n < |s| ==> !IsSpace(s[n])
  {
    if s != [] && IsSpace(s[0]) then 1 + LeadingSpaces(s[1..]) else 0
  }

  /** Number of white-space characters that end `s`. */
  function TrailingSpaces(s: string): (n: nat)
    ensures n <= |s|
    ensures forall i :: |s| - n <= i < |s| ==> IsSpace(s[i])
    ensures n < |s| ==> !IsSpace(s[|s| - n - 1])
  {
    if s != [] && IsSpace(s[|s| - 1]) then 1 + TrailingSpaces(s[..|s| - 1]) else 0
  }

  function TrimStart(s: string): (r: string)
    ensures r == [] || !IsSpace(r[0])
  {
    s[LeadingSpaces(s)..]
  }

  function TrimEnd(s: string): (r: string)
    ensures r == [] || !IsSpace(r[|r| - 1])
  {
    s[..|s| - TrailingSpaces(s)]
  }

  /** `String.prototype.trim`. */
  function Trim(s: string): string {
    TrimEnd(TrimStart(s))
  }

  /** A text with no white space at either end is its own trim. */
  lemma TrimUnpadded(s: string)
    requires s != [] && !IsSpace(s[0]) && !IsSpace(s[|s| - 1])
    ensures Trim(s) == s
  {
    assert LeadingSpaces(s) == 0;
    assert TrimStart(s) == s;
    assert TrailingSpaces(s) == 0;
  }

  // ---------------------------------------------------------------- searching

  /** `p` occurs in `s` at position `i`. */
  predicate OccursAt(s: string, p: string, i: int) {
    0 <= i && i + |p| <= |s| && s[i..i + |p|] == p
  }

  /** `s.indexOf(p, from)`, with None for -1: the first occurrence at or after `from`. */
  function IndexFrom(s: string, p: string, from: nat): (r: Option<nat>)
    ensures r.Some? ==> from <= r.value && OccursAt(s, p, r.value)
    ensures forall j :: from <= j && (r.None? || j < r.value) ==> !OccursAt(s, p, j)
    decreases |s| - from
  {
    if from + |p| > |s| then None
    else if s[from..from + |p|] == p then Some(from)
    else IndexFrom(s, p, from + 1)
  }

  /** `s.includes(p)`. */
  predicate Contains(s: string, p: string) {
    IndexFrom(s, p, 0).Some?
  }

  lemma ContainsIff(s: string, p: string)
    ensures Contains(s, p) <==> exists j :: OccursAt(s, p, j)
  {
    if exists j :: OccursAt(s, p, j) {
      var j :| OccursAt(s, p, j);
      assert 0 <= j;
    }
  }

  /** A pattern whose first character the text lacks does not occur in it. */
  lemma MissingHead(s: string, p: string)
    requires p != [] && p[0] !in s
    ensures !Contains(s, p)
  {
    forall j | 0 <= j && j + |p| <= |s|
      ensures !OccursAt(s, p, j)
    {
      assert s[j..j + |p|][0] == s[j] && s[j] in s;
    }
    ContainsIff(s, p);
  }

  /** The first occurrence is determined by its two defining properties. */
  lemma IndexFromIs(s: string, p: string, from: nat, r: Option<nat>)
    requires r.Some? ==> from <= r.value && OccursAt(s, p, r.value)
    requires forall j :: from <= j && (r.None? || j < r.value) ==> !OccursAt(s, p, j)
    ensures IndexFrom(s, p, from) == r
  {
  }

  /** A found position moved right by `d`. */
  function Offset(o: Option<nat>, d: nat): (r: Option<nat>)
    ensures r.Some? <==> o.Some?
    ensures r.Some? ==> r.value == o.value + d
  {
    match o
    case None => None
    case Some(k) => Some(k + d)
  }

  /** Searching `a + b` from a position inside `b` is searching `b`, shifted by `|a|`. */
  lemma {:induction false} IndexFromShift(a: string, b: string, p: string, i: nat)
    ensures IndexFrom(a + b, p, |a| + i) == Offset(IndexFrom(b, p, i), |a|)
    decreases |b| - i
  {
    if i + |p| <= |b| {
      assert (a + b)[|a| + i..|a| + i + |p|] == b[i..i + |p|];
      if b[i..i + |p|] != p {
        IndexFromShift(a, b, p, i + 1);
      }
    }
  }

  /** An occurrence of `p` cannot start in a stretch of `a` that lacks `p`'s first character. */
  lemma {:induction false} IndexFromPrefix(a: string, b: string, p: string, j: nat)
    requires p != [] && j <= |a| && p[0] !in a[j..]
    ensures IndexFrom(a + b, p, j) == Offset(IndexFrom(b, p, 0), |a|)
    decreases |a| - j
  {
    if j == |a| {
      IndexFromShift(a, b, p, 0);
    } else {
      assert a[j..] == [a[j]] + a[j + 1..];
      if j + |p| <= |a + b| {
        assert (a + b)[j..j + |p|][0] == a[j];
      }
      IndexFromPrefix(a, b, p, j + 1);
    }
  }

  /** Searching past a prefix that lacks the pattern's first character. */
  lemma IndexFromSkip(a: string, b: string, p: string)
    requires p != [] && p[0] !in a
    ensures IndexFrom(a + b, p, 0) == Offset(IndexFrom(b, p, 0), |a|)
  {
    assert a[0..] == a;
    IndexFromPrefix(a, b, p, 0);
  }

  predicate StartsWith(s: string, p: string) {
    |p| <= |s| && s[..|p|] == p
  }

  predicate EndsWith(s: string, p: string) {
    |p| <= |s| && s[|s| - |p|..] == p
  }

  lemma StartsWithAppend(s: string, t: string, p: string)
    requires StartsWith(s, p)
    ensures StartsWith(s + t, p)
  {
    assert (s + t)[..|p|] == s[..|p|];
  }

  lemma EndsWithPrepend(s: string, t: string, p: string)
    requires EndsWith(t, p)
    ensures EndsWith(s + t, p)
  {
    assert (s + t)[|s + t| - |p|..] == t[|t| - |p|..];
  }

  // ---------------------------------------------------------------- replacing

  /** The text `String.prototype.replace` inserts for a replacement string: `$$`, `$&`,
      `` $` `` and `$'` are expanded; any other `$` stays literal, since a string pattern
      has no capture groups. */
  function Expand(repl: string, before: string, matched: string, after: string): string
    decreases |repl|
  {
    if repl == [] then []
    else if |repl| >= 2 && repl[0] == '$' && repl[1] in "$&`'" then
      DollarText(repl[1], before, matched, after) + Expand(repl[2..], before, matched, after)
    else [repl[0]] + Expand(repl[1..], before, matched, after)
  }

  /** What one `$`-sequence of a replacement string stands for. */
  function DollarText(c: char, before: string, matched: string, after: string): string {
    match c
    case '$' => "$"
    case '&' => matched
    case '`' => before
    case _ => after
  }

  lemma ExpandPlain(repl: string, before: string, matched: string, after: string)
    requires '$' !in repl
    ensures Expand(repl, before, matched, after) == repl
  {
    if repl != [] {
      ExpandPlain(repl[1..], before, matched, after);
    }
  }

  /** `s.replace(p, repl)` with a string pattern: only the first occurrence is replaced. */
  function ReplaceFirst(s: string, p: string, repl: string): string {
    match IndexFrom(s, p, 0)
    case None => s
    case Some(k) => Splice(s, p, repl, k)
  }

  /** The text with the occurrence of `p` at `k` replaced by the expanded replacement. */
  function Splice(s: string, p: string, repl: string, k: nat): string
    requires k + |p| <= |s|
  {
    s[..k] + Expand(repl, s[..k], p, s[k + |p|..]) + s[k + |p|..]
  }

  /** With a replacement that holds no `$`, the occurrence found is replaced verbatim. */
  lemma ReplaceFirstAt(s: string, p: string, repl: string, k: nat)
    requires IndexFrom(s, p, 0) == Some(k) && '$' !in repl
    ensures ReplaceFirst(s, p, repl) == s[..k] + repl + s[k + |p|..]
  {
    assert ReplaceFirst(s, p, repl) == Splice(s, p, repl, k);
    ExpandPlain(repl, s[..k], p, s[k + |p|..]);
  }

  /** Replacing in `a + p + b`, where `p`'s first character does not occur in `a`,
      replaces exactly that occurrence of `p`. */
  lemma ReplaceFirstUnique(a: string, p: string, b: string, repl: string)
    requires p != [] && p[0] !in a && '$' !in repl
    ensures ReplaceFirst(a + p + b, p, repl) == a + repl + b
  {
    var s := a + p + b;
    assert s == a + (p + b);
    IndexFromSkip(a, p + b, p);
    assert OccursAt(p + b, p, 0) by { assert (p + b)[..|p|] == p; }
    assert IndexFrom(p + b, p, 0) == Some(0);
    ReplaceFirstAt(s, p, repl, |a|);
    assert s[..|a|] == a;
    assert s[|a| + |p|..] == b;
  }

  // ---------------------------------------------------------------- counting, splitting

  /** Number of occurrences of the character `c` in `s`. */
  function CountChar(s: string, c: char): nat {
    if s == [] then 0 else (if s[0] == c then 1 else 0) + CountChar(s[1..], c)
  }

  lemma {:induction false} CountCharAppend(a: string, b: string, c: char)
    ensures CountChar(a + b, c) == CountChar(a, c) + CountChar(b, c)
  {
    if a == [] {
      assert a + b == b;
    } else {
      assert (a + b)[0] == a[0] && (a + b)[1..] == a[1..] + b;
      CountCharAppend(a[1..], b, c);
    }
  }

  lemma {:induction false} CountCharAbsent(s: string, c: char)
    requires c !in s
    ensures CountChar(s, c) == 0
  {
    if s != [] {
      assert c !in s[1..];
      CountCharAbsent(s[1..], c);
    }
  }

  /** `parts.join(c)`. */
  function JoinWith(parts: seq<string>, c: char): string
    requires |parts| >= 1
  {
    if |parts| == 1 then parts[0] else parts[0] + [c] + JoinWith(parts[1..], c)
  }

  /** `s.split(c)` for a one-character separator: the pieces between separators. */
  function SplitOn(s: string, c: char): (r: seq<string>)
    ensures |r| >= 1
    ensures forall k :: 0 <= k < |r| ==> c !in r[k]
  {
    if s == [] then [[]]
    else
      var t := SplitOn(s[1..], c);
      if s[0] == c then [[]] + t
      else [[s[0]] + t[0]] + t[1..]
  }

  /** Joining the pieces of a split with the separator gives back the text. */
  lemma {:induction false} SplitJoin(s: string, c: char)
    ensures JoinWith(SplitOn(s, c), c) == s
  {
    if s != [] {
      SplitJoin(s[1..], c);
      var t := SplitOn(s[1..], c);
      assert s == [s[0]] + s[1..];
      if s[0] != c {
        var r := [[s[0]] + t[0]] + t[1..];
        assert r[1..] == t[1..];
      }
    }
  }

  /** A split has one more piece than the text has separators. */
  lemma {:induction false} SplitCount(s: string, c: char)
    ensures |SplitOn(s, c)| == CountChar(s, c) + 1
  {
    if s != [] {
      SplitCount(s[1..], c);
      assert s == [s[0]] + s[1..];
    }
  }

  // ---------------------------------------------------------------- numbers

  function DigitChar(d: nat): (c: char)
    requires d < 10
    ensures IsDigit(c) && c as int - '0' as int == d
  {
    ('0' as int + d) as char
  }

  /** `String(n)` for a non-negative integer. */
  function NatToString(n: nat): (r: string)
    ensures |r| >= 1 && forall i :: 0 <= i < |r| ==> IsDigit(r[i])
  {
    if n < 10 then [DigitChar(n)] else NatToString(n / 10) + [DigitChar(n % 10)]
  }

  function DigitValue(c: char): nat
    requires IsDigit(c)
  {
    c as int - '0' as int
  }

  /** Value of the first `n` characters of `s`, all decimal digits. */
  function DigitsValue(s: string, n: nat): nat
    requires n <= |s| && forall i :: 0 <= i < n ==> IsDigit(s[i])
  {
    if n == 0 then 0 else DigitsValue(s, n - 1) * 10 + DigitValue(s[n - 1])
  }

  /** Length of the run of digits that starts `s`. */
  function DigitRun(s: string): (n: nat)
    ensures n <= |s|
    ensures forall i :: 0 <= i < n ==> IsDigit(s[i])
    ensures n < |s| ==> !IsDigit(s[n])
  {
    if s != [] && IsDigit(s[0]) then 1 + DigitRun(s[1..]) else 0
  }

  /** `parseInt(s, 10)`; None stands for NaN. Leading white space and one sign are
      accepted, then as many digits as follow; no digit at all gives NaN. */
  function ParseInt(s: string): Option<int> {
    var t := TrimStart(s);
    var signed := t != [] && (t[0] == '-' || t[0] == '+');
    var body := if signed then t[1..] else t;
    var n := DigitRun(body);
    if n == 0 then None
    else if signed && t[0] == '-' then Some(0 - DigitsValue(body, n))
    else Some(DigitsValue(body, n))
  }

  /** The digits of a prefix have the same value wherever they stand. */
  lemma {:induction false} DigitsValuePrefix(s: string, t: string, n: nat)
    requires n <= |s| && n <= |t| && s[..n] == t[..n]
    requires forall i :: 0 <= i < n ==> IsDigit(s[i])
    ensures forall i :: 0 <= i < n ==> IsDigit(t[i])
    ensures DigitsValue(s, n) == DigitsValue(t, n)
  {
    assert forall i :: 0 <= i < n ==> s[i] == s[..n][i] == t[..n][i] == t[i];
    if n > 0 {
      assert s[..n - 1] == s[..n][..n - 1];
      assert t[..n - 1] == t[..n][..n - 1];
      DigitsValuePrefix(s, t, n - 1);
    }
  }

  lemma {:induction false} DigitsValueOfNatToString(n: nat)
    ensures DigitsValue(NatToString(n), |NatToString(n)|) == n
  {
    if n >= 10 {
      var r, q := NatToString(n), NatToString(n / 10);
      DigitsValueOfNatToString(n / 10);
      assert r[..|q|] == q[..|q|];
      DigitsValuePrefix(q, r, |q|);
    }
  }

  lemma {:induction false} DigitRunAll(ds: string)
    requires forall i :: 0 <= i < |ds| ==> IsDigit(ds[i])
    ensures DigitRun(ds) == |ds|
  {
    if ds != [] {
      DigitRunAll(ds[1..]);
    }
  }

  /** `parseInt(String(n), 10) == n`: the rendering of a number reads back as that number. */
  lemma ParseIntOfNatToString(n: nat)
    ensures ParseInt(NatToString(n)) == Some(n)
  {
    var r := NatToString(n);
    assert !IsSpace(r[0]) && r[0] != '-' && r[0] != '+';
    assert TrimStart(r) == r;
    DigitRunAll(r);
    DigitsValueOfNatToString(n);
  }
}
