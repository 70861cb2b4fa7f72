/** When loading and refreshing `models.json` changes what lookups answer (src/model_catalogue.rs, src/models.rs). */
module CatalogueRefresh {
  import opened Text
  import opened Sequences
  import opened Utf8
  import opened Catalogue
  import opened CatalogueLoad

  // ---------- the list lookups scan ----------

  /** The list a process looks ids up in: the merged one, else the compiled table itself. */
  function Installed(merged: Option<seq<ModelInfo>>, rel: Release): seq<ModelInfo> {
    if merged.Some? then merged.value else rel.compiled
  }

  /** `merged` is what loading `file` gives. */
  predicate IsLoadOf(merged: Option<seq<ModelInfo>>, file: DiskFile, rel: Release) {
    && (merged.Some? <==> LoadedTable(file, rel).Some?)
    && (merged.Some? ==> Lists(merged.value, LoadedTable(file, rel).value) && Sorted(merged.value, Le))
  }

  ghost predicate SameLookups(a: seq<ModelInfo>, b: seq<ModelInfo>) {
    forall query :: LookupIn(a, query) == LookupIn(b, query)
  }

  /** Whatever list this load installs and whatever the next load then installs, every lookup answers alike. */
  ghost predicate LookupsKept(file: DiskFile, next: DiskFile, rel: Release) {
    forall m, n :: IsLoadOf(m, file, rel) && IsLoadOf(n, next, rel) ==>
      SameLookups(Installed(m, rel), Installed(n, rel))
  }

  predicate Keyed(t: Table) {
    forall k :: k in t ==> Key(t[k]) == k
  }

  lemma ListValues(t: Table, keys: set<string>) returns (values: seq<ModelInfo>)
    requires Keyed(t) && keys <= t.Keys
    ensures forall i :: 0 <= i < |values| ==> Key(values[i]) in keys && t[Key(values[i])] == values[i]
    ensures forall i, j :: 0 <= i < j < |values| ==> Key(values[i]) != Key(values[j])
    ensures forall k :: k in keys ==> t[k] in values
  {
    hide Key;
    if keys == {} {
      values := [];
    } else {
      var k :| k in keys;
      var rest := ListValues(t, keys - {k});
      values := [t[k]] + rest;
    }
  }

  /** Every file can be loaded. */
  lemma SomeLoad(file: DiskFile, rel: Release) returns (m: Option<seq<ModelInfo>>)
    ensures IsLoadOf(m, file, rel)
  {
    hide Merged, Key, Sorted, Sort;
    m := None;
    if file.Parsed? {
      var t := LoadedTable(file, rel).value;
      MergedKeys(rel.compiled, CurrentBuiltin(file.cat, rel.version), file.cat.custom);
      var values := ListValues(t, t.Keys);
      SortKeepsIds(values, t);
      ByIdSorts(values);
      m := Some(Sort(values, Le));
    }
  }

  // ---------- lists of one table ----------

  /** Longest-first lists of the same table answer every query alike, whatever their order otherwise. */
  lemma SameTableSameLookup(a: seq<ModelInfo>, b: seq<ModelInfo>, t: Table, query: string)
    requires Lists(a, t) && LongestFirst(a) && Lists(b, t) && LongestFirst(b)
    requires forall k :: k in t ==> Key(t[k]) == k
    ensures LookupIn(a, query) == LookupIn(b, query)
  {
    hide Key, Lower, LookupIn, Lists, LongestFirst;
    ScanIsLongestPrefix(a, t, query);
    ScanIsLongestPrefix(b, t, query);
    var x, y := LookupIn(a, query), LookupIn(b, query);
    if x.Some? && y.Some? {
      var q := Lower(query);
      assert |Key(x.value)| == |Key(y.value)|;
      assert Key(x.value) == q[..|Key(x.value)|] == Key(y.value);
    }
  }

  /** Asked for an id it holds, such a list gives that entry. */
  lemma HeldIsFound(ms: seq<ModelInfo>, t: Table, key: string)
    requires Lists(ms, t) && LongestFirst(ms) && Keyed(t) && key in t
    ensures LookupIn(ms, t[key].id) == Some(t[key])
  {
    hide Lower, LookupIn, Lists, LongestFirst;
    ScanIsLongestPrefix(ms, t, t[key].id);
    assert Lower(t[key].id) == key;
    var m := LookupIn(ms, t[key].id).value;
    assert |Key(m)| == |key| && Key(m) == key;
  }

  /** Longest-first lists answer alike exactly when they list the same table. */
  lemma SameLookupsExactly(a: seq<ModelInfo>, ta: Table, b: seq<ModelInfo>, tb: Table)
    requires Lists(a, ta) && LongestFirst(a) && Keyed(ta) && Lists(b, tb) && LongestFirst(b) && Keyed(tb)
    ensures SameLookups(a, b) <==> ta == tb
  {
    hide Key, Lists, LongestFirst, LookupIn;
    if ta == tb {
      forall query ensures LookupIn(a, query) == LookupIn(b, query) {
        SameTableSameLookup(a, b, ta, query);
      }
    }
    if SameLookups(a, b) {
      forall k ensures Get(ta, k) == Get(tb, k) {
        if k in ta { FoundIsHeld(a, ta, b, tb, k); }
        if k in tb { FoundIsHeld(b, tb, a, ta, k); }
      }
      SameGets(ta, tb);
    }
  }

  lemma FoundIsHeld(a: seq<ModelInfo>, ta: Table, b: seq<ModelInfo>, tb: Table, k: string)
    requires Lists(a, ta) && LongestFirst(a) && Keyed(ta) && Lists(b, tb) && LongestFirst(b) && Keyed(tb)
    requires SameLookups(a, b) && k in ta
    ensures k in tb && tb[k] == ta[k]
  {
    hide Lower, LookupIn, Lists, LongestFirst;
    HeldIsFound(a, ta, k);
    ScanIsLongestPrefix(b, tb, ta[k].id);
    assert LookupIn(b, ta[k].id) == Some(ta[k]);
    assert Key(ta[k]) == k;
  }

  lemma SameGets(a: Table, b: Table)
    requires forall key :: Get(a, key) == Get(b, key)
    ensures a == b
  {
    assert forall key :: key in a <==> Get(a, key).Some?;
    assert forall key :: key in b <==> Get(b, key).Some?;
    forall key | key in a ensures key in b && a[key] == b[key] {
      assert Get(a, key) == Get(b, key);
    }
    forall key | key in b ensures key in a {
      assert Get(a, key) == Get(b, key);
    }
  }

  // ---------- a file that could be read ----------

  /** No invalid entry hides a valid one of the same id, so the table re-read as a file layer changes nothing. */
  ghost predicate Neutral(compiled: seq<ModelInfo>) {
    forall key :: LastValid(compiled, key).Some? ==> LastValid(compiled, key) == LastOf(compiled, key)
  }

  predicate AllValid(ms: seq<ModelInfo>) {
    forall i :: 0 <= i < |ms| ==> Valid(ms[i])
  }

  lemma {:induction false} ValidLast(ms: seq<ModelInfo>, key: string)
    requires AllValid(ms)
    ensures LastValid(ms, key) == LastOf(ms, key)
  {
    hide Valid, Key;
    if ms != [] { ValidLast(ms[..|ms| - 1], key); }
  }

  /** A table of valid entries is neutral. */
  lemma ValidIsNeutral(compiled: seq<ModelInfo>)
    requires AllValid(compiled)
    ensures Neutral(compiled)
  {
    forall key ensures LastValid(compiled, key) == LastOf(compiled, key) { ValidLast(compiled, key); }
  }

  lemma NoLast(key: string)
    ensures LastValid([], key).None? && LastOf([], key).None?
  {
  }

  /** Merging the compiled table with its own copy adds nothing when it is neutral. */
  lemma SelfMergeNeutral(compiled: seq<ModelInfo>, custom: seq<ModelInfo>)
    requires Neutral(compiled)
    ensures Merged(compiled, compiled, custom) == Merged(compiled, [], custom)
  {
    hide LastOf, LastValid, Merged;
    forall key ensures Get(Merged(compiled, compiled, custom), key) == Get(Merged(compiled, [], custom), key) {
      MergedGet(compiled, compiled, custom, key);
      MergedGet(compiled, [], custom, key);
      assert LastValid([], key).None? by { NoLast(key); }
    }
    SameGets(Merged(compiled, compiled, custom), Merged(compiled, [], custom));
  }

  lemma InstalledLists(m: Option<seq<ModelInfo>>, file: DiskFile, rel: Release)
    requires file.Parsed? && IsLoadOf(m, file, rel)
    ensures var t := LoadedTable(file, rel).value;
            Lists(Installed(m, rel), t) && LongestFirst(Installed(m, rel)) && Keyed(t)
  {
    hide Lists, LongestFirst, Merged, Key, Sorted;
    SortedLongestFirst(m.value);
    MergedKeys(rel.compiled, CurrentBuiltin(file.cat, rel.version), file.cat.custom);
  }

  /** For two files that can be read, lookups stay exactly when the tables are the same. */
  lemma KeptIffSameTable(file: DiskFile, next: DiskFile, rel: Release)
    requires file.Parsed? && next.Parsed?
    ensures LookupsKept(file, next, rel) <==> LoadedTable(file, rel) == LoadedTable(next, rel)
  {
    hide IsLoadOf, LoadedTable, Lists, LongestFirst, Keyed, SameLookups;
    forall m, n | IsLoadOf(m, file, rel) && IsLoadOf(n, next, rel)
      ensures SameLookups(Installed(m, rel), Installed(n, rel)) <==> LoadedTable(file, rel) == LoadedTable(next, rel)
    {
      SameIffTable(m, file, n, next, rel);
    }
    var m := SomeLoad(file, rel);
    var n := SomeLoad(next, rel);
  }

  lemma SameIffTable(
      m: Option<seq<ModelInfo>>, file: DiskFile, n: Option<seq<ModelInfo>>, next: DiskFile, rel: Release)
    requires file.Parsed? && next.Parsed? && IsLoadOf(m, file, rel) && IsLoadOf(n, next, rel)
    ensures SameLookups(Installed(m, rel), Installed(n, rel)) <==> LoadedTable(file, rel) == LoadedTable(next, rel)
  {
    hide Lists, LongestFirst, Keyed, SameLookups, Merged, Sorted;
    InstalledLists(m, file, rel);
    InstalledLists(n, next, rel);
    SameLookupsExactly(
      Installed(m, rel), LoadedTable(file, rel).value, Installed(n, rel), LoadedTable(next, rel).value);
  }

  ghost predicate ReadableKept(rel: Release) {
    forall cat, allowWrite, faults ::
      LookupsKept(Parsed(cat), FileAfter(Parsed(cat), rel, allowWrite, faults), rel)
  }

  /** Loading a file that can be read never changes a lookup, whatever the file, exactly when the table is neutral. */
  lemma ReadableKeptExactly(rel: Release)
    ensures ReadableKept(rel) <==> Neutral(rel.compiled)
  {
    hide LookupsKept, Neutral;
    if Neutral(rel.compiled) {
      forall cat, allowWrite, faults
        ensures LookupsKept(Parsed(cat), FileAfter(Parsed(cat), rel, allowWrite, faults), rel)
      {
        NeutralKeeps(cat, rel, allowWrite, faults);
      }
    }
    if ReadableKept(rel) {
      var stale := CatalogueFile(rel.version + "+", "", [], [], map[]);
      assert LookupsKept(Parsed(stale), FileAfter(Parsed(stale), rel, true, NO_FAULTS), rel);
      StaleShows(stale, rel);
    }
  }

  lemma NeutralKeeps(cat: CatalogueFile, rel: Release, allowWrite: bool, faults: Faults)
    requires Neutral(rel.compiled)
    ensures LookupsKept(Parsed(cat), FileAfter(Parsed(cat), rel, allowWrite, faults), rel)
  {
    hide LookupsKept, Neutral, Merged;
    SelfMergeNeutral(rel.compiled, cat.custom);
    KeptIffSameTable(Parsed(cat), FileAfter(Parsed(cat), rel, allowWrite, faults), rel);
  }

  lemma StaleShows(cat: CatalogueFile, rel: Release)
    requires cat.generatedBy != rel.version && cat.custom == []
    requires LookupsKept(Parsed(cat), FileAfter(Parsed(cat), rel, true, NO_FAULTS), rel)
    ensures Neutral(rel.compiled)
  {
    hide LookupsKept, Merged, LastOf, LastValid;
    var c := rel.compiled;
    KeptIffSameTable(Parsed(cat), FileAfter(Parsed(cat), rel, true, NO_FAULTS), rel);
    assert Merged(c, [], []) == Merged(c, c, []);
    forall key | LastValid(c, key).Some? ensures LastValid(c, key) == LastOf(c, key) {
      MergedGet(c, c, [], key);
      MergedGet(c, [], [], key);
      NoLast(key);
    }
  }

  // ---------- the first write ----------

  /** What a fresh file makes of the compiled entries with this id. */
  function Settled(compiled: seq<ModelInfo>, key: string): Option<ModelInfo> {
    if LastValid(compiled, key).Some? then LastValid(compiled, key) else LastOf(compiled, key)
  }

  predicate FirstOfKey(c: seq<ModelInfo>, j: nat)
    requires j < |c|
  {
    forall i :: 0 <= i < j ==> Key(c[i]) != Key(c[j])
  }

  predicate Unshadowed(c: seq<ModelInfo>, j: nat)
    requires j < |c|
  {
    forall i :: 0 <= i < j ==> !(Key(c[i]) <= Key(c[j]))
  }

  /** Every id is met before any shorter one that begins it, and first with the entry a fresh file keeps for it. */
  predicate Orderly(c: seq<ModelInfo>) {
    forall j :: 0 <= j < |c| && FirstOfKey(c, j) ==> Unshadowed(c, j) && Settled(c, Key(c[j])) == Some(c[j])
  }

  lemma {:induction false} FirstOccurrence(c: seq<ModelInfo>, key: string) returns (j: nat)
    requires LastOf(c, key).Some?
    ensures j < |c| && Key(c[j]) == key && FirstOfKey(c, j)
  {
    hide Key;
    var n := |c| - 1;
    if LastOf(c[..n], key).Some? {
      j := FirstOccurrence(c[..n], key);
      assert forall i :: 0 <= i < n ==> c[..n][i] == c[i];
    } else {
      j := n;
      forall i | 0 <= i < n ensures Key(c[i]) != key { NotHeld(c[..n], key, i); }
    }
  }

  lemma {:induction false} NotHeld(c: seq<ModelInfo>, key: string, i: nat)
    requires LastOf(c, key).None? && i < |c|
    ensures Key(c[i]) != key
  {
    hide Key;
    if i < |c| - 1 { NotHeld(c[..|c| - 1], key, i); }
  }

  /** The table of a fresh file without custom entries. */
  lemma FreshGet(c: seq<ModelInfo>, key: string)
    ensures Get(Merged(c, c, []), key) == Settled(c, key)
    ensures key in Merged(c, c, []) <==> LastOf(c, key).Some?
  {
    hide Merged, LastOf, LastValid, Key;
    MergedGet(c, c, [], key);
    NoLast(key);
    ValidIsHeld(c, key);
  }

  lemma {:induction false} ValidIsHeld(c: seq<ModelInfo>, key: string)
    ensures LastValid(c, key).Some? ==> LastOf(c, key).Some?
  {
    hide Key, Valid;
    if c != [] { ValidIsHeld(c[..|c| - 1], key); }
  }

  lemma Held(c: seq<ModelInfo>, i: nat)
    requires i < |c|
    ensures LastOf(c, Key(c[i])).Some?
  {
    hide Key, LastOf;
    if LastOf(c, Key(c[i])).None? { NotHeld(c, Key(c[i]), i); }
  }

  lemma PrefixesNest(a: string, b: string, q: string)
    requires a <= q && b <= q && |a| <= |b|
    ensures a <= b
  {
  }

  /** On an orderly list the first match is the entry a fresh file gives for the longest id. */
  lemma OrderlyScan(c: seq<ModelInfo>, ms: seq<ModelInfo>, query: string)
    requires Orderly(c) && Lists(ms, Merged(c, c, [])) && LongestFirst(ms)
    ensures LookupIn(c, query) == LookupIn(ms, query)
  {
    hide Key, Lower, LookupIn, Lists, LongestFirst, Merged, LastOf, LastValid, Settled;
    var t, q := Merged(c, c, []), Lower(query);
    MergedKeys(c, c, []);
    ScanIsLongestPrefix(ms, t, query);
    var i := LookupFirst(c, query);
    if LookupIn(c, query).Some? {
      Held(c, i);
      FreshGet(c, Key(c[i]));
      var longest := Key(LookupIn(ms, query).value);
      FreshGet(c, longest);
      var j := FirstOccurrence(c, longest);
      PrefixesNest(Key(c[i]), longest, q);
      assert i == j;
    } else {
      forall k | k in t ensures !(k <= q) {
        FreshGet(c, k);
        var j := FirstOccurrence(c, k);
      }
    }
  }

  /** The id of the first entry of its key, asked for, shows what the first match hides. */
  lemma ScanShows(c: seq<ModelInfo>, ms: seq<ModelInfo>, j: nat)
    requires Lists(ms, Merged(c, c, [])) && LongestFirst(ms) && j < |c| && FirstOfKey(c, j)
    requires LookupIn(c, c[j].id) == LookupIn(ms, c[j].id)
    ensures Unshadowed(c, j) && Settled(c, Key(c[j])) == Some(c[j])
  {
    hide Lower, LookupIn, Lists, LongestFirst, Merged, LastOf, LastValid, Settled;
    var t, key := Merged(c, c, []), Key(c[j]);
    MergedKeys(c, c, []);
    Held(c, j);
    FreshGet(c, key);
    ScanIsLongestPrefix(ms, t, c[j].id);
    var m := LookupIn(ms, c[j].id).value;
    assert Lower(c[j].id) == key;
    assert |Key(m)| == |key| && Key(m) == key;
    var i := LookupFirst(c, c[j].id);
    assert i == j;
  }

  /**
   * Writing the file for the first time changes no lookup exactly when the compiled list is orderly: before the write
   * the list itself is scanned, and from the next load on the table made of it.
   */
  lemma FirstWriteKeptExactly(rel: Release)
    ensures LookupsKept(Absent, FileAfter(Absent, rel, true, NO_FAULTS), rel) <==> Orderly(rel.compiled)
  {
    hide IsLoadOf, SameLookups, Orderly;
    var c, next := rel.compiled, FileAfter(Absent, rel, true, NO_FAULTS);
    if Orderly(c) {
      forall m, n | IsLoadOf(m, Absent, rel) && IsLoadOf(n, next, rel)
        ensures SameLookups(Installed(m, rel), Installed(n, rel))
      {
        OrderlyKeeps(rel, m, n);
      }
    }
    if LookupsKept(Absent, next, rel) {
      var m := SomeLoad(Absent, rel);
      var n := SomeLoad(next, rel);
      KeptShowsOrderly(rel, m, n);
    }
  }

  lemma FreshLoad(rel: Release, m: Option<seq<ModelInfo>>, n: Option<seq<ModelInfo>>)
    requires IsLoadOf(m, Absent, rel) && IsLoadOf(n, FileAfter(Absent, rel, true, NO_FAULTS), rel)
    ensures Installed(m, rel) == rel.compiled
    ensures Lists(Installed(n, rel), Merged(rel.compiled, rel.compiled, [])) && LongestFirst(Installed(n, rel))
  {
    hide Lists, LongestFirst, Merged, Sorted;
    SortedLongestFirst(n.value);
  }

  lemma OrderlyKeeps(rel: Release, m: Option<seq<ModelInfo>>, n: Option<seq<ModelInfo>>)
    requires Orderly(rel.compiled)
    requires IsLoadOf(m, Absent, rel) && IsLoadOf(n, FileAfter(Absent, rel, true, NO_FAULTS), rel)
    ensures SameLookups(Installed(m, rel), Installed(n, rel))
  {
    hide IsLoadOf, Orderly, Lists, LongestFirst, Merged, LookupIn;
    FreshLoad(rel, m, n);
    forall query ensures LookupIn(Installed(m, rel), query) == LookupIn(Installed(n, rel), query) {
      OrderlyScan(rel.compiled, Installed(n, rel), query);
    }
  }

  lemma KeptShowsOrderly(rel: Release, m: Option<seq<ModelInfo>>, n: Option<seq<ModelInfo>>)
    requires IsLoadOf(m, Absent, rel) && IsLoadOf(n, FileAfter(Absent, rel, true, NO_FAULTS), rel)
    requires SameLookups(Installed(m, rel), Installed(n, rel))
    ensures Orderly(rel.compiled)
  {
    hide IsLoadOf, Lists, LongestFirst, Merged, LookupIn, Settled, FirstOfKey, Unshadowed, Key;
    var c := rel.compiled;
    FreshLoad(rel, m, n);
    forall j: nat | j < |c| && FirstOfKey(c, j) ensures Unshadowed(c, j) && Settled(c, Key(c[j])) == Some(c[j]) {
      ScanShows(c, Installed(n, rel), j);
    }
  }

  // ---------- every load ----------

  ghost predicate RefreshHarmless(rel: Release) {
    forall file, allowWrite, faults :: LookupsKept(file, FileAfter(file, rel, allowWrite, faults), rel)
  }

  lemma UnreadKept(file: DiskFile, rel: Release)
    requires !file.Parsed?
    ensures LookupsKept(file, file, rel)
  {
  }

  /**
   * Loading never changes a lookup, for every file, permission and fault, exactly when the compiled list is orderly and
   * no invalid entry in it hides a valid one of the same id.
   */
  lemma RefreshHarmlessExactly(rel: Release)
    ensures RefreshHarmless(rel) <==> Neutral(rel.compiled) && Orderly(rel.compiled)
  {
    hide LookupsKept, Neutral, Orderly;
    ReadableKeptExactly(rel);
    FirstWriteKeptExactly(rel);
    if Neutral(rel.compiled) && Orderly(rel.compiled) {
      forall file, allowWrite, faults ensures LookupsKept(file, FileAfter(file, rel, allowWrite, faults), rel) {
        if !file.Parsed? { UnreadKept(file, rel); }
      }
    }
    if RefreshHarmless(rel) {
      forall cat, allowWrite, faults
        ensures LookupsKept(Parsed(cat), FileAfter(Parsed(cat), rel, allowWrite, faults), rel)
      {
      }
    }
  }

  lemma KeptTwice(a: DiskFile, b: DiskFile, c: DiskFile, rel: Release)
    requires LookupsKept(a, b, rel) && LookupsKept(b, c, rel)
    ensures LookupsKept(a, c, rel)
  {
    hide IsLoadOf, Installed, LookupIn;
    var m := SomeLoad(b, rel);
    forall l, n | IsLoadOf(l, a, rel) && IsLoadOf(n, c, rel) ensures SameLookups(Installed(l, rel), Installed(n, rel)) {
      assert SameLookups(Installed(l, rel), Installed(m, rel)) && SameLookups(Installed(m, rel), Installed(n, rel));
    }
  }

  lemma KeptWithItself(file: DiskFile, rel: Release)
    ensures LookupsKept(file, file, rel)
  {
    hide LookupsKept, LoadedTable;
    if file.Parsed? { KeptIffSameTable(file, file, rel); } else { UnreadKept(file, rel); }
  }

  /** For such a table any number of loads, whatever was permitted or failed, leave every lookup as it was. */
  lemma {:induction false} LoadsKeepLookups(file: DiskFile, rel: Release, calls: seq<Call>)
    requires Neutral(rel.compiled) && Orderly(rel.compiled)
    requires forall i :: 0 <= i < |calls| ==> calls[i].rel == rel
    ensures LookupsKept(file, FileAfterAll(file, calls), rel)
  {
    hide LookupsKept, Neutral, Orderly, FileAfter;
    if calls == [] {
      KeptWithItself(file, rel);
    } else {
      var init, c := calls[..|calls| - 1], calls[|calls| - 1];
      var before := FileAfterAll(file, init);
      LoadsKeepLookups(file, rel, init);
      RefreshHarmlessExactly(rel);
      assert LookupsKept(before, FileAfter(before, rel, c.allowWrite, c.faults), rel);
      KeptTwice(file, before, FileAfterAll(file, calls), rel);
    }
  }

  // ---------- a table like the shipped one ----------

  predicate DistinctKeys(ms: seq<ModelInfo>) {
    forall i, j :: 0 <= i < j < |ms| ==> Key(ms[i]) != Key(ms[j])
  }

  /** Valid entries with different ids, longest first, meet both conditions. */
  lemma ShippedIsOrderly(c: seq<ModelInfo>)
    requires AllValid(c) && LongestFirst(c) && DistinctKeys(c)
    ensures Neutral(c) && Orderly(c)
  {
    hide Key, Valid, LastOf, LastValid, Neutral, ByteLen;
    ValidIsNeutral(c);
    forall j: nat | j < |c| && FirstOfKey(c, j) ensures Unshadowed(c, j) && Settled(c, Key(c[j])) == Some(c[j]) {
      forall i | 0 <= i < j ensures !(Key(c[i]) <= Key(c[j])) {
        KeyLength(c[i]);
        KeyLength(c[j]);
        if Key(c[i]) <= Key(c[j]) { PrefixesByLength(Key(c[i]), Key(c[j]), Key(c[j])); }
      }
      ValidLast(c, Key(c[j]));
      OnlyOne(c, j);
    }
  }

  lemma {:induction false} OnlyOne(c: seq<ModelInfo>, j: nat)
    requires DistinctKeys(c) && j < |c|
    ensures LastOf(c, Key(c[j])) == Some(c[j])
  {
    hide Key;
    var n := |c| - 1;
    if j < n {
      OnlyOne(c[..n], j);
    }
  }

  /** A refresh leaves every lookup unchanged: the next load, merged or not, answers every query as this one did. */
  lemma RefreshKeepsLookups(
      file: DiskFile, rel: Release, allowWrite: bool, faults: Faults,
      now: Option<seq<ModelInfo>>, next: Option<seq<ModelInfo>>, query: string)
    requires AllValid(rel.compiled) && LongestFirst(rel.compiled) && Lists(rel.compiled, AddAll(map[], rel.compiled))
    requires IsLoadOf(now, file, rel) && IsLoadOf(next, FileAfter(file, rel, allowWrite, faults), rel)
    ensures LookupIn(Installed(now, rel), query) == LookupIn(Installed(next, rel), query)
    ensures ContextWindow(Installed(now, rel), query) == ContextWindow(Installed(next, rel), query)
    ensures ModelVendor(Installed(now, rel), query) == ModelVendor(Installed(next, rel), query)
  {
    hide Lists, LongestFirst, AllValid, IsLoadOf, FileAfter, Installed, Key, Neutral, Orderly;
    ListedOnce(rel.compiled);
    ShippedIsOrderly(rel.compiled);
    RefreshHarmlessExactly(rel);
    assert LookupsKept(file, FileAfter(file, rel, allowWrite, faults), rel);
    assert SameLookups(Installed(now, rel), Installed(next, rel));
  }

  lemma ListedOnce(c: seq<ModelInfo>)
    requires Lists(c, AddAll(map[], c))
    ensures DistinctKeys(c)
  {
    hide Key;
  }

  // ---------- tables for which it fails ----------

  /** Two valid entries of one id: the first write turns one answer into the other. */
  lemma FirstWriteChangesAnswer(rel: Release, n: Option<seq<ModelInfo>>)
    requires rel.compiled == [ModelInfo("m", "v", 1), ModelInfo("m", "v", 2)]
    requires IsLoadOf(n, FileAfter(Absent, rel, true, NO_FAULTS), rel)
    ensures AllValid(rel.compiled) && LongestFirst(rel.compiled) && Neutral(rel.compiled) && !Orderly(rel.compiled)
    ensures ContextWindow(Installed(None, rel), "m") == Some(1) && ContextWindow(Installed(n, rel), "m") == Some(2)
  {
    hide Neutral, Orderly, LongestFirst, IsLoadOf, FileAfter, ContextWindow, Key, Valid;
    var a, b := ModelInfo("m", "v", 1), ModelInfo("m", "v", 2);
    ExampleKeys(a, b);
    TwoLongestFirst(a, b);
    ValidIsNeutral([a, b]);
    NotOrderly(a, b);
    TwoAnswers(rel, a, b, n);
  }

  /** What is found before and after the first write. */
  lemma TwoAnswers(rel: Release, a: ModelInfo, b: ModelInfo, n: Option<seq<ModelInfo>>)
    requires rel.compiled == [a, b] && Key(a) == Key(b) == Lower("m") == "m" && b.id == "m" && Valid(a) && Valid(b)
    requires IsLoadOf(n, FileAfter(Absent, rel, true, NO_FAULTS), rel)
    ensures ContextWindow(Installed(None, rel), "m") == Some(a.contextWindow)
    ensures ContextWindow(Installed(n, rel), "m") == Some(b.contextWindow)
  {
    hide Merged, Lists, LongestFirst, Sorted, IsLoadOf, FileAfter, Key, Valid, Lower;
    var c := [a, b];
    TwoEntries(a, b);
    FreshGet(c, "m");
    NothingLoaded(rel);
    FreshLoad(rel, None, n);
    MergedKeys(c, c, []);
    HeldIsFound(Installed(n, rel), Merged(c, c, []), "m");
  }

  lemma NothingLoaded(rel: Release)
    ensures IsLoadOf(None, Absent, rel)
  {
  }

  lemma ExampleKeys(a: ModelInfo, b: ModelInfo)
    requires a.id == b.id == "m" && a.contextWindow != 0 && b.contextWindow != 0
    ensures Key(a) == Key(b) == Lower("m") == "m" && Valid(a) && Valid(b)
  {
    TrimUnique("", "m", "");
    assert "" + "m" + "" == "m";
  }

  lemma TwoLongestFirst(a: ModelInfo, b: ModelInfo)
    requires a.id == b.id
    ensures LongestFirst([a, b])
  {
    hide ByteLen;
  }

  lemma TwoEntries(a: ModelInfo, b: ModelInfo)
    requires Key(a) == Key(b)
    ensures LastOf([a, b], Key(a)) == Some(b)
    ensures Valid(b) ==> LastValid([a, b], Key(a)) == Some(b)
    ensures !Valid(b) && Valid(a) ==> LastValid([a, b], Key(a)) == Some(a)
  {
    hide Key, Valid;
    assert [a, b][..1] == [a] && [a][..0] == [];
  }

  lemma NotOrderly(a: ModelInfo, b: ModelInfo)
    requires Key(a) == Key(b) && Valid(b) && a != b
    ensures !Orderly([a, b])
  {
    hide Key, Valid, LastOf, LastValid;
    TwoEntries(a, b);
    assert FirstOfKey([a, b], 0);
  }

  /** An invalid entry behind a valid one of the same id: a refresh turns one answer into the other. */
  lemma RefreshChangesAnswer(
      rel: Release, cat: CatalogueFile, m: Option<seq<ModelInfo>>, n: Option<seq<ModelInfo>>)
    requires rel.compiled == [ModelInfo("m", "v", 1), ModelInfo("m", "v", 0)]
    requires cat.generatedBy != rel.version && cat.custom == []
    requires IsLoadOf(m, Parsed(cat), rel)
    requires IsLoadOf(n, FileAfter(Parsed(cat), rel, true, NO_FAULTS), rel)
    ensures !Neutral(rel.compiled)
    ensures ContextWindow(Installed(m, rel), "m") == Some(0) && ContextWindow(Installed(n, rel), "m") == Some(1)
  {
    hide Merged, Lists, LongestFirst, Sorted, LastOf, LastValid;
    var a, b := ModelInfo("m", "v", 1), ModelInfo("m", "v", 0);
    var c := [a, b];
    InvalidKeys(a, b);
    TwoEntries(a, b);
    InstalledLists(m, Parsed(cat), rel);
    InstalledLists(n, FileAfter(Parsed(cat), rel, true, NO_FAULTS), rel);
    MergedGet(c, [], [], "m");
    NoLast("m");
    FreshGet(c, "m");
    HeldIsFound(Installed(m, rel), Merged(c, [], []), "m");
    HeldIsFound(Installed(n, rel), Merged(c, c, []), "m");
  }

  lemma InvalidKeys(a: ModelInfo, b: ModelInfo)
    requires a.id == b.id == "m" && a.contextWindow != 0 && b.contextWindow == 0
    ensures Key(a) == Key(b) == "m" && Valid(a) && !Valid(b)
  {
    TrimUnique("", "m", "");
    assert "" + "m" + "" == "m";
  }
}
