/** The model catalogue: merging three layers, and looking ids up (src/model_catalogue.rs, src/models.rs). */
module Catalogue {
  import opened Text
  import opened Sequences
  import opened Utf8

  type u32 = n: nat | n < 0x1_0000_0000

  datatype ModelInfo = ModelInfo(id: string, vendor: string, contextWindow: u32)

  // ---------- case folding ----------

  function LowerChar(c: char): char {
    if 'A' <= c <= 'Z' then c - 'A' + 'a' else c
  }

  /** `to_ascii_lowercase` */
  function Lower(s: string): (r: string)
    ensures |r| == |s|
  {
    seq(|s|, i requires 0 <= i < |s| => LowerChar(s[i]))
  }

  /** The same letter, capital or small, or the same character. */
  predicate SameLetter(x: char, y: char) {
    || x == y
    || ('A' <= x <= 'Z' && 'a' <= y <= 'z' && x - 'A' == y - 'a')
    || ('a' <= x <= 'z' && 'A' <= y <= 'Z' && x - 'a' == y - 'A')
  }

  /** Equal up to the case of ASCII letters. */
  predicate SameButCase(a: string, b: string) {
    |a| == |b| && forall i :: 0 <= i < |a| ==> SameLetter(a[i], b[i])
  }

  /** Folding makes two texts equal exactly when they differ in case alone, and leaves no capital. */
  lemma LowerFolds(a: string, b: string)
    ensures Lower(a) == Lower(b) <==> SameButCase(a, b)
    ensures forall c :: c in Lower(a) ==> !('A' <= c <= 'Z')
  {
    forall i | 0 <= i < |a| && i < |b| ensures LowerChar(a[i]) == LowerChar(b[i]) <==> SameLetter(a[i], b[i]) {
      SameLower(a[i], b[i]);
    }
    if Lower(a) == Lower(b) {
      forall i | 0 <= i < |a| ensures SameLetter(a[i], b[i]) {
        assert Lower(a)[i] == Lower(b)[i];
      }
    }
  }

  lemma LowerTwice(s: string)
    ensures Lower(Lower(s)) == Lower(s)
  {
  }

  lemma SameLower(x: char, y: char)
    ensures LowerChar(x) == LowerChar(y) <==> SameLetter(x, y)
  {
  }

  lemma {:induction false} ByteLenLower(s: string)
    ensures ByteLen(Lower(s)) == ByteLen(s)
  {
    if s != "" {
      ByteLenLower(s[1..]);
      assert Lower(s)[1..] == Lower(s[1..]);
    }
  }

  // ---------- the order of the merged table ----------

  /** Longest id first, then by id. */
  predicate Le(a: ModelInfo, b: ModelInfo) {
    ByteLen(a.id) > ByteLen(b.id) || (ByteLen(a.id) == ByteLen(b.id) && TextLe(a.id, b.id))
  }

  lemma LeTotal(a: ModelInfo, b: ModelInfo)
    ensures Le(a, b) || Le(b, a)
    ensures Le(a, b) && Le(b, a) ==> a.id == b.id
  {
    TextLeTotal(a.id, b.id);
  }

  lemma LeTransitive(a: ModelInfo, b: ModelInfo, c: ModelInfo)
    requires Le(a, b) && Le(b, c)
    ensures Le(a, c)
  {
    if ByteLen(a.id) == ByteLen(b.id) == ByteLen(c.id) { TextLeTransitive(a.id, b.id, c.id); }
  }

  lemma LeOrder()
    ensures TotalOrder(Le)
  {
    hide Le;
    forall a: ModelInfo, b: ModelInfo ensures Le(a, b) || Le(b, a) { LeTotal(a, b); }
    forall a: ModelInfo, b: ModelInfo, c: ModelInfo | Le(a, b) && Le(b, c) ensures Le(a, c) { LeTransitive(a, b, c); }
  }

  lemma ByIdSorts(ms: seq<ModelInfo>)
    ensures Sorted(Sort(ms, Le), Le) && multiset(Sort(ms, Le)) == multiset(ms)
  {
    hide Le, Sort;
    LeOrder();
    SortSorts(ms, Le);
  }

  // ---------- layers ----------

  predicate Valid(m: ModelInfo) { Trim(m.id) != "" && m.contextWindow != 0 }

  function Key(m: ModelInfo): string { Lower(m.id) }

  type Table = map<string, ModelInfo>

  function AddAll(t: Table, ms: seq<ModelInfo>): Table {
    if ms == [] then t else
      var m := ms[|ms| - 1];
      AddAll(t, ms[..|ms| - 1])[Key(m) := m]
  }

  function AddValid(t: Table, ms: seq<ModelInfo>): Table {
    if ms == [] then t else
      var rest, m := AddValid(t, ms[..|ms| - 1]), ms[|ms| - 1];
      if Valid(m) then rest[Key(m) := m] else rest
  }

  function Merged(compiled: seq<ModelInfo>, builtin: seq<ModelInfo>, custom: seq<ModelInfo>): Table {
    AddValid(AddValid(AddAll(map[], compiled), builtin), custom)
  }

  /** The last entry for a key. */
  function LastOf(ms: seq<ModelInfo>, key: string): Option<ModelInfo> {
    if ms == [] then None
    else if Key(ms[|ms| - 1]) == key then Some(ms[|ms| - 1])
    else LastOf(ms[..|ms| - 1], key)
  }

  function LastValid(ms: seq<ModelInfo>, key: string): Option<ModelInfo> {
    if ms == [] then None
    else if Key(ms[|ms| - 1]) == key && Valid(ms[|ms| - 1]) then Some(ms[|ms| - 1])
    else LastValid(ms[..|ms| - 1], key)
  }

  /** The declared value of a key: custom, else file builtin, else compiled. */
  function Winner(
      compiled: seq<ModelInfo>, builtin: seq<ModelInfo>, custom: seq<ModelInfo>, key: string): Option<ModelInfo>
  {
    if LastValid(custom, key).Some? then LastValid(custom, key)
    else if LastValid(builtin, key).Some? then LastValid(builtin, key)
    else LastOf(compiled, key)
  }

  function Get(t: Table, key: string): Option<ModelInfo> {
    if key in t then Some(t[key]) else None
  }

  lemma {:induction false} AddAllGet(t: Table, ms: seq<ModelInfo>, key: string)
    ensures Get(AddAll(t, ms), key) == if LastOf(ms, key).Some? then LastOf(ms, key) else Get(t, key)
  {
    hide Key;
    if ms != [] { AddAllGet(t, ms[..|ms| - 1], key); }
  }

  lemma {:induction false} AddValidGet(t: Table, ms: seq<ModelInfo>, key: string)
    ensures Get(AddValid(t, ms), key) == if LastValid(ms, key).Some? then LastValid(ms, key) else Get(t, key)
  {
    hide Key, Valid;
    if ms != [] { AddValidGet(t, ms[..|ms| - 1], key); }
  }

  lemma MergedGet(compiled: seq<ModelInfo>, builtin: seq<ModelInfo>, custom: seq<ModelInfo>, key: string)
    ensures Get(Merged(compiled, builtin, custom), key) == Winner(compiled, builtin, custom, key)
  {
    hide AddAll, AddValid, LastOf, LastValid;
    var base := AddAll(map[], compiled);
    AddAllGet(map[], compiled, key);
    AddValidGet(base, builtin, key);
    AddValidGet(AddValid(base, builtin), custom, key);
  }

  lemma {:induction false} LastOfKey(ms: seq<ModelInfo>, key: string)
    ensures LastOf(ms, key).Some? ==> LastOf(ms, key).value in ms && Key(LastOf(ms, key).value) == key
    ensures LastValid(ms, key).Some? ==> Key(LastValid(ms, key).value) == key && Valid(LastValid(ms, key).value)
  {
    hide Key, Valid;
    if ms != [] { LastOfKey(ms[..|ms| - 1], key); }
  }

  /** Every entry sits under its own folded id. */
  lemma MergedKeys(compiled: seq<ModelInfo>, builtin: seq<ModelInfo>, custom: seq<ModelInfo>)
    ensures var t := Merged(compiled, builtin, custom); forall k :: k in t ==> Key(t[k]) == k
  {
    hide Merged, Key, LastOf, LastValid;
    var t := Merged(compiled, builtin, custom);
    forall k | k in t ensures Key(t[k]) == k {
      MergedGet(compiled, builtin, custom, k);
      LastOfKey(custom, k);
      LastOfKey(builtin, k);
      LastOfKey(compiled, k);
    }
  }

  // ---------- the merged list ----------

  /** The list holds exactly the table's entries, once each. */
  predicate Lists(ms: seq<ModelInfo>, t: Table) {
    && (forall i :: 0 <= i < |ms| ==> Key(ms[i]) in t && t[Key(ms[i])] == ms[i])
    && (forall i, j :: 0 <= i < j < |ms| ==> Key(ms[i]) != Key(ms[j]))
    && (forall k :: k in t ==> t[k] in ms)
  }

  lemma OnceEach(ms: seq<ModelInfo>, t: Table, m: ModelInfo)
    requires Lists(ms, t)
    ensures multiset(ms)[m] == if m in ms then 1 else 0
  {
    hide Key;
    if m in ms {
      var i :| 0 <= i < |ms| && ms[i] == m;
      assert forall j :: 0 <= j < |ms| && j != i ==> ms[j] != m;
      OnceAt(ms, i);
    }
  }

  lemma OnceAt(ms: seq<ModelInfo>, i: nat)
    requires i < |ms| && forall j :: 0 <= j < |ms| && j != i ==> ms[j] != ms[i]
    ensures multiset(ms)[ms[i]] == 1
  {
    var a, b := ms[..i], ms[i + 1..];
    assert ms == a + [ms[i]] + b;
    assert ms[i] !in a && ms[i] !in b;
  }

  lemma ListsMultiset(a: seq<ModelInfo>, b: seq<ModelInfo>, t: Table)
    requires Lists(a, t) && Lists(b, t)
    ensures multiset(a) == multiset(b)
  {
    hide Key;
    forall m ensures multiset(a)[m] == multiset(b)[m] {
      OnceEach(a, t, m);
      OnceEach(b, t, m);
    }
  }

  lemma {:induction false} SortedUnique(a: seq<ModelInfo>, b: seq<ModelInfo>)
    requires Sorted(a, Le) && Sorted(b, Le) && multiset(a) == multiset(b)
    requires forall i, j :: 0 <= i < j < |a| ==> a[i].id != a[j].id
    ensures a == b
  {
    hide Le;
    assert |multiset(a)| == |multiset(b)|;
    if a != [] {
      SameHead(a, b);
      SameTail(a, b);
      SortedUnique(a[1..], b[1..]);
    }
  }

  lemma SameHead(a: seq<ModelInfo>, b: seq<ModelInfo>)
    requires Sorted(a, Le) && Sorted(b, Le) && multiset(a) == multiset(b) && a != [] && b != []
    requires forall i, j :: 0 <= i < j < |a| ==> a[i].id != a[j].id
    ensures a[0] == b[0]
  {
    hide Le;
    var x, y := a[0], b[0];
    assert x in multiset(b) && y in multiset(a);
    var i :| 0 <= i < |b| && b[i] == x;
    var j :| 0 <= j < |a| && a[j] == y;
    LeTotal(x, y);
  }

  lemma SameTail(a: seq<ModelInfo>, b: seq<ModelInfo>)
    requires multiset(a) == multiset(b) && a != [] && b != [] && a[0] == b[0]
    ensures multiset(a[1..]) == multiset(b[1..])
    ensures a[1..] == b[1..] ==> a == b
  {
    assert a == [a[0]] + a[1..] && b == [a[0]] + b[1..];
    assert multiset(a[1..]) == multiset(a) - multiset{a[0]};
  }

  /** The merged list is determined by the table: the order in which the hash map yields its values is irrelevant. */
  lemma OrderDoesNotMatter(a: seq<ModelInfo>, b: seq<ModelInfo>, t: Table)
    requires Lists(a, t) && Lists(b, t)
    ensures Sort(a, Le) == Sort(b, Le)
  {
    hide Sort;
    ListsMultiset(a, b, t);
    ByIdSorts(a);
    ByIdSorts(b);
    SortKeepsIds(a, t);
    SortedUnique(Sort(a, Le), Sort(b, Le));
  }

  lemma SortKeepsIds(ms: seq<ModelInfo>, t: Table)
    requires Lists(ms, t)
    ensures Lists(Sort(ms, Le), t)
    ensures forall i, j :: 0 <= i < j < |Sort(ms, Le)| ==> Sort(ms, Le)[i].id != Sort(ms, Le)[j].id
  {
    hide Sort, Sorted;
    var s := Sort(ms, Le);
    ByIdSorts(ms);
    forall i | 0 <= i < |s| ensures s[i] in ms { assert s[i] in multiset(s); }
    forall m | m in ms ensures m in s { assert m in multiset(ms); }
    forall i, j | 0 <= i < j < |s| ensures Key(s[i]) != Key(s[j]) {
      if Key(s[i]) == Key(s[j]) {
        OnceEach(ms, t, s[i]);
        TwiceIn(s, i, j);
      }
    }
  }

  lemma TwiceIn(s: seq<ModelInfo>, i: nat, j: nat)
    requires i < j < |s| && s[i] == s[j]
    ensures multiset(s)[s[i]] >= 2
  {
    assert s == s[..i] + [s[i]] + s[i + 1..j] + [s[j]] + s[j + 1..];
  }

  /** Fill the table layer by layer, then sort its values, in whatever order the map yields them. */
  method MergeParts(compiled: seq<ModelInfo>, builtin: seq<ModelInfo>, custom: seq<ModelInfo>)
    returns (out: seq<ModelInfo>)
    ensures Lists(out, Merged(compiled, builtin, custom)) && Sorted(out, Le)
    ensures forall other :: Lists(other, Merged(compiled, builtin, custom)) ==> Sort(other, Le) == out
  {
    hide Key, Valid, Sort, Sorted;
    var byId: Table := map[];
    for i := 0 to |compiled|
      invariant byId == AddAll(map[], compiled[..i])
    {
      assert compiled[..i + 1][..i] == compiled[..i];
      byId := byId[Key(compiled[i]) := compiled[i]];
    }
    assert compiled[..|compiled|] == compiled;
    byId := AddLayer(byId, builtin);
    byId := AddLayer(byId, custom);
    assert byId == Merged(compiled, builtin, custom);
    MergedKeys(compiled, builtin, custom);
    var values := IntoValues(byId);
    out := Sort(values, Le);
    ByIdSorts(values);
    SortKeepsIds(values, byId);
    forall other | Lists(other, byId) ensures Sort(other, Le) == out {
      OrderDoesNotMatter(other, values, byId);
    }
  }

  method AddLayer(t: Table, ms: seq<ModelInfo>) returns (r: Table)
    ensures r == AddValid(t, ms)
  {
    hide Key, Valid;
    r := t;
    for i := 0 to |ms|
      invariant r == AddValid(t, ms[..i])
    {
      assert ms[..i + 1][..i] == ms[..i];
      if Valid(ms[i]) {
        r := r[Key(ms[i]) := ms[i]];
      }
    }
    assert ms[..|ms|] == ms;
  }

  /** `into_values`: every value once, in no particular order. */
  method IntoValues(t: Table) returns (values: seq<ModelInfo>)
    requires forall k :: k in t ==> Key(t[k]) == k
    ensures Lists(values, t)
  {
    hide Key;
    values := [];
    var rest := t.Keys;
    while rest != {}
      invariant rest <= t.Keys
      invariant forall k :: k in t ==> (k in rest || t[k] in values)
      invariant forall i :: 0 <= i < |values| ==>
        Key(values[i]) in t && Key(values[i]) !in rest && t[Key(values[i])] == values[i]
      invariant forall i, j :: 0 <= i < j < |values| ==> Key(values[i]) != Key(values[j])
      decreases rest
    {
      var k :| k in rest;
      rest := rest - {k};
      values := values + [t[k]];
    }
  }

  // ---------- looking up ----------

  /** `lookup`: the first entry whose folded id begins the folded query. */
  function LookupIn(ms: seq<ModelInfo>, query: string): Option<ModelInfo> {
    if ms == [] then None
    else if Key(ms[0]) <= Lower(query) then Some(ms[0])
    else LookupIn(ms[1..], query)
  }

  function ContextWindow(ms: seq<ModelInfo>, query: string): Option<u32> {
    var m := LookupIn(ms, query);
    if m.Some? then Some(m.value.contextWindow) else None
  }

  function ModelVendor(ms: seq<ModelInfo>, query: string): Option<string> {
    var m := LookupIn(ms, query);
    if m.Some? then Some(m.value.vendor) else None
  }

  predicate LongestFirst(ms: seq<ModelInfo>) {
    forall i, j :: 0 <= i < j < |ms| ==> ByteLen(ms[i].id) >= ByteLen(ms[j].id)
  }

  /** `key` is the longest folded id that begins the query. */
  predicate LongestPrefix(t: Table, query: string, key: string) {
    && key in t && key <= Lower(query)
    && forall k :: k in t && k <= Lower(query) ==> |k| <= |key|
  }

  /** Entry `i` is the first that matches. */
  predicate FirstMatch(ms: seq<ModelInfo>, query: string, i: int) {
    && 0 <= i < |ms| && Key(ms[i]) <= Lower(query)
    && forall j :: 0 <= j < i ==> !(Key(ms[j]) <= Lower(query))
  }

  lemma {:induction false} LookupFirst(ms: seq<ModelInfo>, query: string) returns (i: nat)
    ensures LookupIn(ms, query).None? ==> forall i :: 0 <= i < |ms| ==> !(Key(ms[i]) <= Lower(query))
    ensures LookupIn(ms, query).Some? ==> FirstMatch(ms, query, i) && LookupIn(ms, query) == Some(ms[i])
  {
    hide Key, Lower;
    i := 0;
    if ms != [] && !(Key(ms[0]) <= Lower(query)) {
      var j := LookupFirst(ms[1..], query);
      i := j + 1;
    }
  }

  lemma PrefixesByLength(a: string, b: string, q: string)
    requires a <= q && b <= q
    ensures |a| < |b| ==> ByteLen(a) < ByteLen(b)
  {
    if |a| < |b| {
      assert b == a + b[|a|..];
      ByteLenAppend(a, b[|a|..]);
      ByteLenPositive(b[|a|..]);
    }
  }

  /**
   * The linear first-match scan over a longest-first list is the declarative lookup: nothing exactly when no known
   * id begins the query, and otherwise the entry of the longest one.
   */
  lemma ScanIsLongestPrefix(ms: seq<ModelInfo>, t: Table, query: string)
    requires Lists(ms, t) && LongestFirst(ms)
    requires forall k :: k in t ==> Key(t[k]) == k
    ensures LookupIn(ms, query).None? <==> forall k :: k in t ==> !(k <= Lower(query))
    ensures LookupIn(ms, query).Some? ==>
              var m := LookupIn(ms, query).value; LongestPrefix(t, query, Key(m)) && t[Key(m)] == m
  {
    hide Key, Lower, ByteLen, LookupIn, LongestFirst;
    var q := Lower(query);
    var i := LookupFirst(ms, query);
    forall k | k in t ensures exists j :: 0 <= j < |ms| && Key(ms[j]) == k {
      var j :| 0 <= j < |ms| && ms[j] == t[k];
    }
    if LookupIn(ms, query).Some? {
      forall k | k in t && k <= q ensures |k| <= |Key(ms[i])| {
        var j :| 0 <= j < |ms| && Key(ms[j]) == k;
        LaterIsShorter(ms, query, i, j);
      }
    }
  }

  lemma LaterIsShorter(ms: seq<ModelInfo>, query: string, i: nat, j: nat)
    requires LongestFirst(ms) && FirstMatch(ms, query, i)
    requires j < |ms| && Key(ms[j]) <= Lower(query)
    ensures |Key(ms[j])| <= |Key(ms[i])|
  {
    hide Key, Lower, ByteLen;
    assert i <= j;
    PrefixesByLength(Key(ms[i]), Key(ms[j]), Lower(query));
    KeyLength(ms[i]);
    KeyLength(ms[j]);
  }

  lemma KeyLength(m: ModelInfo)
    ensures ByteLen(Key(m)) == ByteLen(m.id)
  {
    ByteLenLower(m.id);
  }

  lemma SortedLongestFirst(ms: seq<ModelInfo>)
    requires Sorted(ms, Le)
    ensures LongestFirst(ms)
  {
    hide ByteLen, TextLe;
  }

  /** What a lookup should give, said without any list: the winner of the longest known id that begins the query. */
  ghost predicate Answers(
      r: Option<ModelInfo>, compiled: seq<ModelInfo>, builtin: seq<ModelInfo>, custom: seq<ModelInfo>, query: string)
  {
    if r.None? then
      forall k: string :: k <= Lower(query) ==> Winner(compiled, builtin, custom, k).None?
    else
      var key := Key(r.value);
      && key <= Lower(query)
      && Winner(compiled, builtin, custom, key) == r
      && forall k: string :: k <= Lower(query) && Winner(compiled, builtin, custom, k).Some? ==> |k| <= |key|
  }

  /** Catalogue lookup: scanning the merged list answers exactly the declarative question. */
  lemma LookupRefinesDeclaration(
      compiled: seq<ModelInfo>, builtin: seq<ModelInfo>, custom: seq<ModelInfo>, ms: seq<ModelInfo>, query: string)
    requires Lists(ms, Merged(compiled, builtin, custom)) && LongestFirst(ms)
    ensures Answers(LookupIn(ms, query), compiled, builtin, custom, query)
  {
    hide Lower, Key, Merged, LongestFirst, Lists, Winner, LookupIn;
    var t := Merged(compiled, builtin, custom);
    MergedKeys(compiled, builtin, custom);
    ScanIsLongestPrefix(ms, t, query);
    forall k: string ensures Get(t, k) == Winner(compiled, builtin, custom, k) {
      MergedGet(compiled, builtin, custom, k);
    }
  }

  /** Only one answer is possible. */
  lemma AnswerUnique(
      a: Option<ModelInfo>, b: Option<ModelInfo>,
      compiled: seq<ModelInfo>, builtin: seq<ModelInfo>, custom: seq<ModelInfo>, query: string)
    requires Answers(a, compiled, builtin, custom, query) && Answers(b, compiled, builtin, custom, query)
    ensures a == b
  {
    hide Lower, Key, Winner;
    if a.Some? && b.Some? {
      var q := Lower(query);
      assert |Key(a.value)| == |Key(b.value)|;
      assert Key(a.value) == q[..|Key(a.value)|] == Key(b.value);
    }
  }
}
