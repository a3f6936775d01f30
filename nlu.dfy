/** The filter-value helpers of lib/nlu.js: loose normalisation, whole-token ASCII matching,
    canonicalisation of raw values against a filter dimension of the catalog, and detection
    of product and org mentions in free text. */
module Nlu {
  import opened Wrappers
  import opened Text
  import opened Catalog
  import MetricsConfig

  // ---------------------------------------------------------------- normalisation

  /** `normalizeLooseToken`: lower-case, then drop every white-space character. */
  function NormalizeLoose(s: string): string {
    RemoveSpaces(Lower(s))
  }

  /** The result holds no white space and no upper-case ASCII letter, and a string already
      of that shape is left as it is. */
  lemma NormalizeLooseShape(s: string)
    ensures var r := NormalizeLoose(s);
            forall i :: 0 <= i < |r| ==> !IsSpace(r[i]) && !IsAsciiUpper(r[i])
    ensures (forall i :: 0 <= i < |s| ==> !IsSpace(s[i]) && !IsAsciiUpper(s[i])) ==> NormalizeLoose(s) == s
  {
    LowerSpec(s);
    RemoveSpacesSpec(Lower(s));
    var l := Lower(s);
    var r := RemoveSpaces(l);
    forall i | 0 <= i < |r|
      ensures !IsAsciiUpper(r[i])
    {
      var j :| 0 <= j < |l| && l[j] == r[i];
    }
    if forall i :: 0 <= i < |s| ==> !IsSpace(s[i]) && !IsAsciiUpper(s[i]) {
      LowerOfLower(s);
    }
  }

  /** Normalising twice is normalising once. */
  lemma NormalizeLooseIdempotent(s: string)
    ensures NormalizeLoose(NormalizeLoose(s)) == NormalizeLoose(s)
  {
    NormalizeLooseShape(s);
    NormalizeLooseShape(NormalizeLoose(s));
  }

  // ---------------------------------------------------------------- whole-token matching

  /** `token` occurs at `i`, comparing ASCII letters without regard to case. */
  predicate MatchesAt(text: string, token: string, i: nat) {
    i + |token| <= |text|
    && forall k :: 0 <= k < |token| ==> LowerChar(text[i + k]) == LowerChar(token[k])
  }

  /** The regular expression `(^|[^a-z0-9])token([^a-z0-9]|$)` with the `i` flag matches with
      the token itself starting at `i`. */
  predicate TokenAt(text: string, token: string, i: nat) {
    MatchesAt(text, token, i)
    && (i == 0 || !IsAsciiAlnum(text[i - 1]))
    && (i + |token| == |text| || !IsAsciiAlnum(text[i + |token|]))
  }

  /** The regular-expression search, started at position `i`. */
  function TokenFrom(text: string, token: string, i: nat): bool
    decreases |text| - i
  {
    if i > |text| then false
    else TokenAt(text, token, i) || TokenFrom(text, token, i + 1)
  }

  /** `containsAsciiToken`: the token, its metacharacters escaped, matches as written. */
  function ContainsAsciiToken(text: string, token: string): bool {
    TokenFrom(text, token, 0)
  }

  lemma {:induction false} TokenFromIff(text: string, token: string, i: nat)
    ensures TokenFrom(text, token, i) <==> exists j :: i <= j && TokenAt(text, token, j)
    decreases |text| - i
  {
    if i <= |text| {
      TokenFromIff(text, token, i + 1);
      if exists j :: i <= j && TokenAt(text, token, j) {
        var j :| i <= j && TokenAt(text, token, j);
        assert j == i || i + 1 <= j;
      }
    } else {
      assert forall j :: i <= j ==> !MatchesAt(text, token, j);
    }
  }

  /** The token occurs case-insensitively with no ASCII letter or digit on either side. */
  lemma ContainsAsciiTokenIff(text: string, token: string)
    ensures ContainsAsciiToken(text, token) <==> exists j :: TokenAt(text, token, j)
  {
    TokenFromIff(text, token, 0);
  }

  // ---------------------------------------------------------------- canonical map

  /** The ids of a list of filter values. */
  function IdsOf(vs: seq<FilterValue>): set<string> {
    set v | v in vs :: v.id
  }

  /** The map `buildCanonicalMapFromConfig` fills from a dimension's values, in order: the
      normalised id and the normalised label both map to the id; later values overwrite. */
  function CanonicalMapOf(vs: seq<FilterValue>): map<string, string> {
    if vs == [] then map[]
    else
      var v := vs[|vs| - 1];
      CanonicalMapOf(vs[..|vs| - 1])[NormalizeLoose(v.id) := v.id][NormalizeLoose(v.caption) := v.id]
  }

  /** Every key maps to a declared id, and every value's normalised id and label are keys. */
  lemma {:induction false} CanonicalMapValues(vs: seq<FilterValue>)
    ensures CanonicalMapOf(vs).Values <= IdsOf(vs)
    ensures forall v :: v in vs ==> NormalizeLoose(v.id) in CanonicalMapOf(vs) && NormalizeLoose(v.caption) in CanonicalMapOf(vs)
  {
    if vs != [] {
      var init := vs[..|vs| - 1];
      var last := vs[|vs| - 1];
      assert vs == init + [last];
      CanonicalMapValues(init);
      assert IdsOf(init) <= IdsOf(vs);
    }
  }

  /** The map for a dimension id; an unknown dimension gives the empty map. */
  function DimensionMap(dims: seq<FilterDimension>, dimension: string): map<string, string> {
    match FindDimension(dims, dimension)
    case None => map[]
    case Some(d) => CanonicalMapOf(d.values)
  }

  /** `buildCanonicalMapFromConfig`. */
  method BuildCanonicalMap(dims: seq<FilterDimension>, dimension: string) returns (m: map<string, string>)
    ensures m == DimensionMap(dims, dimension)
  {
    var found := FindDimension(dims, dimension);
    if found.None? {
      return map[];
    }
    var vs := found.value.values;
    m := map[];
    var i := 0;
    while i < |vs|
      invariant 0 <= i <= |vs|
      invariant m == CanonicalMapOf(vs[..i])
    {
      assert vs[..i + 1][..i] == vs[..i];
      m := m[NormalizeLoose(vs[i].id) := vs[i].id][NormalizeLoose(vs[i].caption) := vs[i].id];
      i := i + 1;
    }
    assert vs[..i] == vs;
  }

  /** `map.get(key)`, the empty string standing for `undefined`. */
  function Lookup(m: map<string, string>, key: string): string {
    if key in m then m[key] else ""
  }

  /** When no value's normalised id or label collides with another value's normalised id,
      every value's normalised id maps back to that value's id. */
  lemma {:induction false} CanonicalMapOfSelf(vs: seq<FilterValue>)
    requires forall v, w :: v in vs && w in vs && NormalizeLoose(w.id) == NormalizeLoose(v.id) ==> w.id == v.id
    requires forall v, w :: v in vs && w in vs && NormalizeLoose(w.caption) == NormalizeLoose(v.id) ==> w.id == v.id
    ensures forall v :: v in vs ==> Lookup(CanonicalMapOf(vs), NormalizeLoose(v.id)) == v.id
  {
    if vs != [] {
      var init := vs[..|vs| - 1];
      var last := vs[|vs| - 1];
      assert vs == init + [last];
      CanonicalMapOfSelf(init);
      forall v | v in vs
        ensures Lookup(CanonicalMapOf(vs), NormalizeLoose(v.id)) == v.id
      {
        SelfStep(CanonicalMapOf(init), last, v);
      }
    }
  }

  /** One step of the fold keeps a self-mapping entry when the new value does not collide. */
  lemma SelfStep(m: map<string, string>, last: FilterValue, v: FilterValue)
    requires v != last ==> Lookup(m, NormalizeLoose(v.id)) == v.id
    requires NormalizeLoose(last.id) == NormalizeLoose(v.id) ==> last.id == v.id
    requires NormalizeLoose(last.caption) == NormalizeLoose(v.id) ==> last.id == v.id
    ensures Lookup(m[NormalizeLoose(last.id) := last.id][NormalizeLoose(last.caption) := last.id], NormalizeLoose(v.id)) == v.id
  {
  }

  // ---------------------------------------------------------------- canonicalisation

  /** The lookup keys of the raw values: each one loosely normalised. */
  function Keys(raws: seq<string>): (keys: seq<string>)
    ensures |keys| == |raws|
    ensures forall i :: 0 <= i < |raws| ==> keys[i] == NormalizeLoose(raws[i])
  {
    seq(|raws|, i requires 0 <= i < |raws| => NormalizeLoose(raws[i]))
  }

  /** The loop of `canonicalizeFilterValues` over the remaining lookup keys, `out` holding
      what has been emitted so far (the `seen` set is the set of its elements). */
  function CanonFold(m: map<string, string>, keys: seq<string>, out: seq<string>): seq<string>
    decreases |keys|
  {
    if keys == [] then out
    else
      var c := Lookup(m, keys[0]);
      CanonFold(m, keys[1..], if c != "" && c !in out then out + [c] else out)
  }

  /** `canonicalizeFilterValues`: an empty dimension id gives no values. */
  function Canonicalize(dims: seq<FilterDimension>, dimension: string, raws: seq<string>): seq<string> {
    if dimension == "" then [] else CanonFold(DimensionMap(dims, dimension), Keys(raws), [])
  }

  /** `canonicalizeFilterValues`, with its `seen` set. */
  method CanonicalizeFilterValues(dims: seq<FilterDimension>, dimension: string, raws: seq<string>)
    returns (out: seq<string>)
    ensures out == Canonicalize(dims, dimension, raws)
  {
    if dimension == "" {
      return [];
    }
    var m := BuildCanonicalMap(dims, dimension);
    ghost var keys := Keys(raws);
    out := [];
    var seen: set<string> := {};
    var i := 0;
    while i < |raws|
      invariant 0 <= i <= |raws|
      invariant seen == set x | x in out
      invariant CanonFold(m, keys[i..], out) == CanonFold(m, keys, [])
    {
      var key := NormalizeLoose(raws[i]);
      var canonical := Lookup(m, key);
      assert keys[i..][0] == key && keys[i..][1..] == keys[i + 1..];
      if canonical != "" && canonical !in seen {
        seen := seen + {canonical};
        out := out + [canonical];
      }
      i := i + 1;
    }
    assert keys[i..] == [];
  }

  predicate Distinct(s: seq<string>) {
    forall i, j :: 0 <= i < j < |s| ==> s[i] != s[j]
  }

  /** Processing `a + b` is processing `a`, then `b`. */
  lemma {:induction false} CanonFoldAppend(m: map<string, string>, a: seq<string>, b: seq<string>, out: seq<string>)
    ensures CanonFold(m, a + b, out) == CanonFold(m, b, CanonFold(m, a, out))
    decreases |a|
  {
    if a != [] {
      assert (a + b)[0] == a[0];
      assert (a + b)[1..] == a[1..] + b;
      var c := Lookup(m, a[0]);
      CanonFoldAppend(m, a[1..], b, if c != "" && c !in out then out + [c] else out);
    } else {
      assert a + b == b;
    }
  }

  /** A value is emitted exactly when it was emitted already or some key maps to it. */
  lemma {:induction false} CanonFoldMembers(m: map<string, string>, keys: seq<string>, out: seq<string>, x: string)
    ensures x in CanonFold(m, keys, out) <==>
              x in out || (x != "" && exists k :: k in keys && Lookup(m, k) == x)
    decreases |keys|
  {
    if keys != [] {
      var c := Lookup(m, keys[0]);
      CanonFoldMembers(m, keys[1..], if c != "" && c !in out then out + [c] else out, x);
      assert forall k :: k in keys <==> k == keys[0] || k in keys[1..];
    }
  }

  /** No value is emitted twice. */
  lemma {:induction false} CanonFoldDistinct(m: map<string, string>, keys: seq<string>, out: seq<string>)
    requires Distinct(out)
    ensures Distinct(CanonFold(m, keys, out))
    decreases |keys|
  {
    if keys != [] {
      var c := Lookup(m, keys[0]);
      CanonFoldDistinct(m, keys[1..], if c != "" && c !in out then out + [c] else out);
    }
  }

  /** Distinct new values whose keys map to them are emitted unchanged, in order. */
  lemma {:induction false} CanonFoldFixed(m: map<string, string>, keys: seq<string>, xs: seq<string>, out: seq<string>)
    requires |keys| == |xs| && Distinct(xs)
    requires forall i :: 0 <= i < |xs| ==> xs[i] != "" && xs[i] !in out && Lookup(m, keys[i]) == xs[i]
    ensures CanonFold(m, keys, out) == out + xs
    decreases |xs|
  {
    if xs != [] {
      var t := xs[1..];
      var out' := out + [xs[0]];
      assert CanonFold(m, keys, out) == CanonFold(m, keys[1..], out');
      forall i | 0 <= i < |t|
        ensures t[i] != "" && t[i] !in out' && Lookup(m, keys[1..][i]) == t[i]
      {
        assert t[i] == xs[i + 1] && keys[1..][i] == keys[i + 1];
        assert xs[0] != xs[i + 1];
      }
      CanonFoldFixed(m, keys[1..], t, out');
      assert out' + t == out + xs;
    }
  }

  /** With the empty map nothing is emitted. */
  lemma {:induction false} CanonFoldEmpty(keys: seq<string>, out: seq<string>)
    ensures CanonFold(map[], keys, out) == out
    decreases |keys|
  {
    if keys != [] {
      CanonFoldEmpty(keys[1..], out);
    }
  }

  /** Output values are declared value ids of the dimension; an empty or unknown dimension
      id yields no values. */
  lemma CanonicalizeDeclared(dims: seq<FilterDimension>, dimension: string, raws: seq<string>)
    ensures dimension == "" || FindDimension(dims, dimension).None? ==> Canonicalize(dims, dimension, raws) == []
    ensures forall x :: x in Canonicalize(dims, dimension, raws) ==>
              FindDimension(dims, dimension).Some? && x in IdsOf(FindDimension(dims, dimension).value.values)
  {
    if dimension != "" {
      var m := DimensionMap(dims, dimension);
      var keys := Keys(raws);
      if FindDimension(dims, dimension).Some? {
        CanonicalMapValues(FindDimension(dims, dimension).value.values);
      } else {
        CanonFoldEmpty(keys, []);
      }
      forall x | x in Canonicalize(dims, dimension, raws)
        ensures FindDimension(dims, dimension).Some? && x in IdsOf(FindDimension(dims, dimension).value.values)
      {
        CanonFoldMembers(m, keys, [], x);
        var k :| k in keys && Lookup(m, k) == x;
        assert k in m;
        assert x in m.Values;
      }
    }
  }

  /** The output has no duplicates. */
  lemma CanonicalizeDistinct(dims: seq<FilterDimension>, dimension: string, raws: seq<string>)
    ensures Distinct(Canonicalize(dims, dimension, raws))
  {
    if dimension != "" {
      CanonFoldDistinct(DimensionMap(dims, dimension), Keys(raws), []);
    }
  }

  /** A value is in the output exactly when some raw value normalises to a key that maps
      to it. */
  lemma CanonicalizeMembers(dims: seq<FilterDimension>, dimension: string, raws: seq<string>, x: string)
    requires dimension != ""
    ensures x in Canonicalize(dims, dimension, raws) <==>
              x != "" && exists r :: r in raws && Lookup(DimensionMap(dims, dimension), NormalizeLoose(r)) == x
  {
    var m := DimensionMap(dims, dimension);
    var keys := Keys(raws);
    CanonFoldMembers(m, keys, [], x);
    if exists k :: k in keys && Lookup(m, k) == x {
      var k :| k in keys && Lookup(m, k) == x;
      var i :| 0 <= i < |keys| && keys[i] == k;
      assert raws[i] in raws;
    }
    if exists r :: r in raws && Lookup(m, NormalizeLoose(r)) == x {
      var r :| r in raws && Lookup(m, NormalizeLoose(r)) == x;
      var i :| 0 <= i < |raws| && raws[i] == r;
      assert keys[i] in keys;
    }
  }

  /** First-seen order: one more raw value appends its canonical id when that id is new and
      otherwise changes nothing. */
  lemma CanonicalizeFirstSeen(dims: seq<FilterDimension>, dimension: string, raws: seq<string>, raw: string)
    requires dimension != ""
    ensures var before := Canonicalize(dims, dimension, raws);
            var c := Lookup(DimensionMap(dims, dimension), NormalizeLoose(raw));
            Canonicalize(dims, dimension, raws + [raw])
            == if c != "" && c !in before then before + [c] else before
  {
    var m := DimensionMap(dims, dimension);
    assert Keys(raws + [raw]) == Keys(raws) + [NormalizeLoose(raw)];
    CanonFoldAppend(m, Keys(raws), [NormalizeLoose(raw)], []);
    assert [NormalizeLoose(raw)][1..] == [];
  }

  /** Every declared value of the dimension maps back to its own id. */
  predicate SelfMapped(dims: seq<FilterDimension>, dimension: string) {
    FindDimension(dims, dimension).Some?
    && forall v :: v in FindDimension(dims, dimension).value.values ==>
         v.id != "" && Lookup(DimensionMap(dims, dimension), NormalizeLoose(v.id)) == v.id
  }

  /** Distinct declared ids of a self-mapped dimension come out as they went in. */
  lemma CanonicalizeDeclaredIds(dims: seq<FilterDimension>, dimension: string, xs: seq<string>)
    requires dimension != "" && SelfMapped(dims, dimension) && Distinct(xs)
    requires forall x :: x in xs ==> x in IdsOf(FindDimension(dims, dimension).value.values)
    ensures Canonicalize(dims, dimension, xs) == xs
  {
    var m := DimensionMap(dims, dimension);
    var keys := Keys(xs);
    forall i | 0 <= i < |xs|
      ensures xs[i] != "" && xs[i] !in [] && Lookup(m, keys[i]) == xs[i]
    {
      assert xs[i] in xs;
      var v :| v in FindDimension(dims, dimension).value.values && v.id == xs[i];
    }
    CanonFoldFixed(m, keys, xs, []);
    assert [] + xs == xs;
  }

  /** Canonicalisation is idempotent for a self-mapped dimension. */
  lemma CanonicalizeIdempotent(dims: seq<FilterDimension>, dimension: string, raws: seq<string>)
    requires dimension != "" && SelfMapped(dims, dimension)
    ensures var once := Canonicalize(dims, dimension, raws);
            Canonicalize(dims, dimension, once) == once
  {
    CanonicalizeDeclared(dims, dimension, raws);
    CanonicalizeDistinct(dims, dimension, raws);
    CanonicalizeDeclaredIds(dims, dimension, Canonicalize(dims, dimension, raws));
  }

  /** No white space and no lower-case ASCII letter: the shape of the shipped value ids. */
  predicate UpperToken(s: string) {
    forall i :: 0 <= i < |s| ==> !IsSpace(s[i]) && !('a' <= s[i] <= 'z')
  }

  /** On such an id, loose normalisation is lower-casing alone. */
  lemma NormalizeUpper(a: string)
    requires UpperToken(a)
    ensures NormalizeLoose(a) == Lower(a)
  {
    LowerSpec(a);
    RemoveSpacesSpec(Lower(a));
    assert forall i :: 0 <= i < |Lower(a)| ==> !IsSpace(Lower(a)[i]);
  }

  lemma LowerCharInjective(x: char, y: char)
    requires !('a' <= x <= 'z') && !('a' <= y <= 'z') && LowerChar(x) == LowerChar(y)
    ensures x == y
  {
  }

  /** Loose normalisation is one-to-one on such ids. */
  lemma NormalizeUpperInjective(a: string, b: string)
    requires UpperToken(a) && UpperToken(b) && NormalizeLoose(a) == NormalizeLoose(b)
    ensures a == b
  {
    NormalizeUpper(a);
    NormalizeUpper(b);
    LowerSpec(a);
    LowerSpec(b);
    assert |a| == |Lower(a)| == |Lower(b)| == |b|;
    forall i | 0 <= i < |a|
      ensures a[i] == b[i]
    {
      assert Lower(a)[i] == Lower(b)[i];
      LowerCharInjective(a[i], b[i]);
    }
  }

  /** A dimension whose labels equal its ids and whose ids have that shape maps every
      normalised id back to its id. */
  lemma UpperValuesSelfMapped(dims: seq<FilterDimension>, dimension: string)
    requires FindDimension(dims, dimension).Some?
    requires forall v :: v in FindDimension(dims, dimension).value.values ==>
               v.caption == v.id && v.id != "" && UpperToken(v.id)
    ensures SelfMapped(dims, dimension)
  {
    var vs := FindDimension(dims, dimension).value.values;
    forall v, w | v in vs && w in vs && NormalizeLoose(w.id) == NormalizeLoose(v.id)
      ensures w.id == v.id
    {
      NormalizeUpperInjective(w.id, v.id);
    }
    CanonicalMapOfSelf(vs);
  }

  // ---------------------------------------------------------------- the shipped dimensions

  lemma ShippedIdsUpper()
    ensures UpperToken("CT") && UpperToken("SPS") && UpperToken("ES") && UpperToken("3DI") && UpperToken("CERTAS")
    ensures UpperToken("PSM") && UpperToken("非PSM")
  {
  }

  lemma ProductSelfMapped()
    ensures SelfMapped(MetricsConfig.Shipped.filterDimensions, "product")
  {
    MetricsConfig.ProductDimensionWellFormed();
    ShippedIdsUpper();
    assert FindDimension(MetricsConfig.Shipped.filterDimensions, "product") == Some(MetricsConfig.ProductDimension);
    UpperValuesSelfMapped(MetricsConfig.Shipped.filterDimensions, "product");
  }

  lemma OrgSelfMapped()
    ensures SelfMapped(MetricsConfig.Shipped.filterDimensions, "org")
  {
    MetricsConfig.OrgDimensionWellFormed();
    ShippedIdsUpper();
    assert FindDimension(MetricsConfig.Shipped.filterDimensions, "org") == Some(MetricsConfig.OrgDimension);
    UpperValuesSelfMapped(MetricsConfig.Shipped.filterDimensions, "org");
  }

  lemma NormalizeCtExamples()
    ensures NormalizeLoose("CT") == "ct" && NormalizeLoose("ct") == "ct" && NormalizeLoose(" Ct ") == "ct"
  {
    assert Lower(" Ct ") == " ct ";
    assert RemoveSpaces(" ct ") == "ct";
  }

  /** Three raw values whose keys map to one id emit that id once. */
  lemma CanonicalizeSameKey(dims: seq<FilterDimension>, dimension: string, a: string, b: string, c: string, x: string)
    requires dimension != "" && x != ""
    requires var m := DimensionMap(dims, dimension);
             Lookup(m, NormalizeLoose(a)) == x && Lookup(m, NormalizeLoose(b)) == x && Lookup(m, NormalizeLoose(c)) == x
    ensures Canonicalize(dims, dimension, [a, b, c]) == [x]
  {
    var m := DimensionMap(dims, dimension);
    var keys := Keys([a, b, c]);
    assert keys[0] == NormalizeLoose(a) && keys[1] == NormalizeLoose(b) && keys[2] == NormalizeLoose(c);
    CanonFoldFixed(m, keys[..1], [x], []);
    assert CanonFold(m, keys[..1], []) == [x];
    CanonFoldAppend(m, keys[..1], keys[1..], []);
    assert keys[..1] + keys[1..] == keys;
    assert forall k :: k in keys[1..] ==> Lookup(m, k) == x;
    CanonFoldSeen(m, keys[1..], [x]);
    assert CanonFold(m, keys, []) == [x];
  }

  /** Keys that all map to an id already emitted add nothing. */
  lemma {:induction false} CanonFoldSeen(m: map<string, string>, keys: seq<string>, out: seq<string>)
    requires forall k :: k in keys ==> Lookup(m, k) == "" || Lookup(m, k) in out
    ensures CanonFold(m, keys, out) == out
    decreases |keys|
  {
    if keys != [] {
      assert keys[0] in keys;
      assert forall k :: k in keys[1..] ==> k in keys;
      CanonFoldSeen(m, keys[1..], out);
    }
  }

  /** Raw values differing only in case and white space collapse to one canonical id. */
  lemma CanonicalizeExample()
    ensures Canonicalize(MetricsConfig.Shipped.filterDimensions, "product", ["ct", "CT", " Ct "]) == ["CT"]
  {
    ProductSelfMapped();
    NormalizeCtExamples();
    var m := DimensionMap(MetricsConfig.Shipped.filterDimensions, "product");
    assert MetricsConfig.ProductDimension.values[0] in FindDimension(MetricsConfig.Shipped.filterDimensions, "product").value.values;
    assert Lookup(m, NormalizeLoose("CT")) == "CT";
    CanonicalizeSameKey(MetricsConfig.Shipped.filterDimensions, "product", "ct", "CT", " Ct ", "CT");
  }

  // ---------------------------------------------------------------- filters in free text

  /** The filter slots found in a text: a dimension id and its canonical values. */
  datatype Filters = Filters(dimension: string, values: seq<string>)

  /** Product tokens, each with the value it stands for, in the order they are looked for. */
  const ProductTokens: seq<(string, string)> :=
    [("ct", "CT"), ("sps", "SPS"), ("es", "ES"), ("3di", "3DI"), ("certas", "CERTAS")]

  const ProductOrder: seq<string> := ["CT", "SPS", "ES", "3DI", "CERTAS"]

  /** The values of the tokens that occur whole in the text, in table order. */
  function ProductsFrom(text: string, toks: seq<(string, string)>): seq<string> {
    if toks == [] then []
    else (if ContainsAsciiToken(text, toks[0].0) then [toks[0].1] else []) + ProductsFrom(text, toks[1..])
  }

  function ValuesOf(toks: seq<(string, string)>): seq<string> {
    if toks == [] then [] else [toks[0].1] + ValuesOf(toks[1..])
  }

  /** `r` is `full` with some elements dropped. */
  predicate Subsequence(r: seq<string>, full: seq<string>)
    decreases |full|
  {
    if full == [] then r == []
    else (r != [] && r[0] == full[0] && Subsequence(r[1..], full[1..])) || Subsequence(r, full[1..])
  }

  /** The detected values keep the table's order. */
  lemma {:induction false} ProductsFromSubsequence(text: string, toks: seq<(string, string)>)
    ensures Subsequence(ProductsFrom(text, toks), ValuesOf(toks))
  {
    if toks != [] {
      ProductsFromSubsequence(text, toks[1..]);
      var rest := ProductsFrom(text, toks[1..]);
      var r := ProductsFrom(text, toks);
      var full := ValuesOf(toks);
      assert full[0] == toks[0].1 && full[1..] == ValuesOf(toks[1..]);
      if ContainsAsciiToken(text, toks[0].0) {
        assert r == [toks[0].1] + rest;
        assert r[0] == full[0] && r[1..] == rest;
      } else {
        assert r == rest;
      }
    }
  }

  /** A value is detected exactly when one of its tokens occurs whole in the text. */
  lemma {:induction false} ProductsFromMembers(text: string, toks: seq<(string, string)>, x: string)
    ensures x in ProductsFrom(text, toks) <==>
              exists i :: 0 <= i < |toks| && toks[i].1 == x && ContainsAsciiToken(text, toks[i].0)
  {
    if toks != [] {
      ProductsFromMembers(text, toks[1..], x);
      if exists i :: 0 <= i < |toks| && toks[i].1 == x && ContainsAsciiToken(text, toks[i].0) {
        var i :| 0 <= i < |toks| && toks[i].1 == x && ContainsAsciiToken(text, toks[i].0);
        if i > 0 {
          assert toks[1..][i - 1] == toks[i];
        }
      }
      if x in ProductsFrom(text, toks[1..]) {
        var i :| 0 <= i < |toks[1..]| && toks[1..][i].1 == x && ContainsAsciiToken(text, toks[1..][i].0);
        assert toks[i + 1] == toks[1..][i];
      }
    }
  }

  /** A table without duplicate values detects no value twice. */
  lemma {:induction false} ProductsFromDistinct(text: string, toks: seq<(string, string)>)
    requires Distinct(ValuesOf(toks))
    ensures Distinct(ProductsFrom(text, toks))
  {
    if toks != [] {
      var full := ValuesOf(toks);
      assert full[0] == toks[0].1 && full[1..] == ValuesOf(toks[1..]);
      assert Distinct(ValuesOf(toks[1..]));
      ProductsFromDistinct(text, toks[1..]);
      var rest := ProductsFrom(text, toks[1..]);
      if ContainsAsciiToken(text, toks[0].0) {
        ProductsFromSubsequence(text, toks[1..]);
        SubsequenceMembers(rest, ValuesOf(toks[1..]));
        assert toks[0].1 !in ValuesOf(toks[1..]);
        DistinctCons(toks[0].1, rest);
      }
    }
  }

  lemma DistinctCons(h: string, rest: seq<string>)
    requires Distinct(rest) && h !in rest
    ensures Distinct([h] + rest)
  {
    var r := [h] + rest;
    forall i, j | 0 <= i < j < |r|
      ensures r[i] != r[j]
    {
      assert r[j] == rest[j - 1];
      if i > 0 {
        assert r[i] == rest[i - 1];
      }
    }
  }

  /** The products mentioned in a text, in the fixed order CT, SPS, ES, 3DI, CERTAS. */
  function ProductsIn(text: string): seq<string> {
    ProductsFrom(text, ProductTokens)
  }

  /** The loose text mentions "非psm", "nonpsm" or "notpsm". */
  predicate NonPsm(text: string) {
    var loose := NormalizeLoose(text);
    Contains(loose, "非psm") || Contains(loose, "nonpsm") || Contains(loose, "notpsm")
  }

  /** The org mentioned in a text: a non-PSM mention wins over a bare "psm" token. */
  function OrgsIn(text: string): (r: seq<string>)
    ensures r == [] || r == ["PSM"] || r == ["非PSM"]
  {
    if NonPsm(text) then ["非PSM"]
    else if ContainsAsciiToken(text, "psm") then ["PSM"]
    else []
  }

  /** `extractFiltersFromText` of lib/nlu.js: products first, then orgs, else nothing. */
  function FiltersOf(dims: seq<FilterDimension>, text: string): Option<Filters> {
    var products := ProductsIn(text);
    var orgs := OrgsIn(text);
    if |products| > 0 then Some(Filters("product", Canonicalize(dims, "product", products)))
    else if |orgs| > 0 then Some(Filters("org", Canonicalize(dims, "org", orgs)))
    else None
  }

  /** The five product tests of `extractFiltersFromText`, run over a token table in its
      order, pushing each value whose token occurs. */
  method DetectProducts(text: string, toks: seq<(string, string)>) returns (products: seq<string>)
    ensures products == ProductsFrom(text, toks)
  {
    products := [];
    for i := 0 to |toks|
      invariant products + ProductsFrom(text, toks[i..]) == ProductsFrom(text, toks)
    {
      assert toks[i..][1..] == toks[i + 1..];
      if ContainsAsciiToken(text, toks[i].0) {
        products := products + [toks[i].1];
      }
    }
    assert toks[|toks|..] == [];
  }

  /** `extractFiltersFromText`. */
  method ExtractFiltersFromText(dims: seq<FilterDimension>, text: string) returns (r: Option<Filters>)
    ensures r == FiltersOf(dims, text)
  {
    var products := DetectProducts(text, ProductTokens);

    var orgs: seq<string> := [];
    if NonPsm(text) {
      orgs := orgs + ["非PSM"];
    } else if ContainsAsciiToken(text, "psm") {
      orgs := orgs + ["PSM"];
    }
    assert orgs == OrgsIn(text);

    if |products| > 0 {
      var values := CanonicalizeFilterValues(dims, "product", products);
      return Some(Filters("product", values));
    }
    if |orgs| > 0 {
      var values := CanonicalizeFilterValues(dims, "org", orgs);
      return Some(Filters("org", values));
    }
    return None;
  }

  /** Product detection: a value is reported exactly when its token occurs whole, and the
      values come in the fixed order without duplicates. */
  lemma ProductsInFacts(text: string)
    ensures Subsequence(ProductsIn(text), ProductOrder) && Distinct(ProductsIn(text))
    ensures forall i :: 0 <= i < |ProductTokens| ==>
              (ProductTokens[i].1 in ProductsIn(text) <==> ContainsAsciiToken(text, ProductTokens[i].0))
  {
    assert ValuesOf(ProductTokens) == ProductOrder;
    ProductsFromSubsequence(text, ProductTokens);
    ProductsFromDistinct(text, ProductTokens);
    forall i | 0 <= i < |ProductTokens|
      ensures ProductTokens[i].1 in ProductsIn(text) <==> ContainsAsciiToken(text, ProductTokens[i].0)
    {
      ProductsFromMembers(text, ProductTokens, ProductTokens[i].1);
    }
  }

  /** A product mention suppresses any org mention; nothing is found exactly when neither
      a product nor an org is mentioned. */
  lemma FiltersPrecedence(dims: seq<FilterDimension>, text: string)
    ensures FiltersOf(dims, text).None? <==> ProductsIn(text) == [] && OrgsIn(text) == []
    ensures ProductsIn(text) != [] ==> FiltersOf(dims, text).value.dimension == "product"
    ensures ProductsIn(text) == [] && OrgsIn(text) != [] ==> FiltersOf(dims, text).value.dimension == "org"
    ensures NonPsm(text) && ProductsIn(text) == [] ==> FiltersOf(dims, text).value.values == Canonicalize(dims, "org", ["非PSM"])
  {
  }

  lemma ShippedProductIds()
    ensures FindDimension(MetricsConfig.Shipped.filterDimensions, "product") == Some(MetricsConfig.ProductDimension)
    ensures forall x :: x in ProductOrder ==> x in IdsOf(MetricsConfig.ProductDimension.values)
  {
    var vs := MetricsConfig.ProductDimension.values;
    assert vs[0] in vs && vs[1] in vs && vs[2] in vs && vs[3] in vs && vs[4] in vs;
  }

  lemma ShippedOrgIds()
    ensures FindDimension(MetricsConfig.Shipped.filterDimensions, "org") == Some(MetricsConfig.OrgDimension)
    ensures "PSM" in IdsOf(MetricsConfig.OrgDimension.values) && "非PSM" in IdsOf(MetricsConfig.OrgDimension.values)
  {
    var vs := MetricsConfig.OrgDimension.values;
    assert vs[0] in vs && vs[1] in vs;
  }

  lemma ShippedProductFilters(text: string)
    requires ProductsIn(text) != []
    ensures Canonicalize(MetricsConfig.Shipped.filterDimensions, "product", ProductsIn(text)) == ProductsIn(text)
  {
    ProductSelfMapped();
    ProductsInFacts(text);
    ShippedProductIds();
    SubsequenceMembers(ProductsIn(text), ProductOrder);
    CanonicalizeDeclaredIds(MetricsConfig.Shipped.filterDimensions, "product", ProductsIn(text));
  }

  lemma ShippedOrgCanonical(orgs: seq<string>)
    requires orgs == [] || orgs == ["PSM"] || orgs == ["非PSM"]
    ensures Canonicalize(MetricsConfig.Shipped.filterDimensions, "org", orgs) == orgs
  {
    if orgs != [] {
      OrgSelfMapped();
      ShippedOrgIds();
      CanonicalizeDeclaredIds(MetricsConfig.Shipped.filterDimensions, "org", orgs);
    }
  }

  /** With the shipped dimensions canonicalisation changes nothing: the detected values
      are reported as detected. */
  lemma ShippedFilters(text: string)
    ensures FiltersOf(MetricsConfig.Shipped.filterDimensions, text)
            == if ProductsIn(text) != [] then Some(Filters("product", ProductsIn(text)))
               else if OrgsIn(text) != [] then Some(Filters("org", OrgsIn(text)))
               else None
  {
    if ProductsIn(text) != [] {
      ShippedProductFilters(text);
    } else {
      ShippedOrgCanonical(OrgsIn(text));
    }
  }

  lemma {:induction false} SubsequenceMembers(r: seq<string>, full: seq<string>)
    requires Subsequence(r, full)
    ensures forall x :: x in r ==> x in full
    decreases |full|
  {
    if full != [] {
      if r != [] && r[0] == full[0] && Subsequence(r[1..], full[1..]) {
        SubsequenceMembers(r[1..], full[1..]);
        assert forall x :: x in r ==> x == r[0] || x in r[1..];
      } else {
        SubsequenceMembers(r, full[1..]);
      }
    }
  }
}
