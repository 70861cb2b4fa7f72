/** What ignoring case means for lookups and for the merge, said without folding (src/models.rs). */
module CatalogueCase {
  import opened Text
  import opened Sequences
  import opened Utf8
  import opened Catalogue
  import opened CatalogueLoad

  /** The query begins with the id, whatever the case of their letters. */
  predicate Begins(id: string, query: string) {
    |id| <= |query| && SameButCase(id, query[..|id|])
  }

  lemma BeginsFolded(m: ModelInfo, query: string)
    ensures Key(m) <= Lower(query) <==> Begins(m.id, query)
  {
    hide SameButCase;
    if |m.id| <= |query| {
      LowerFolds(m.id, query[..|m.id|]);
      assert Lower(query)[..|m.id|] == Lower(query[..|m.id|]);
    }
  }

  // ---------- lookups ----------

  /** Queries that differ in case alone get the same answer. */
  lemma QueryCaseIsIgnored(ms: seq<ModelInfo>, query: string, other: string)
    requires SameButCase(query, other)
    ensures LookupIn(ms, query) == LookupIn(ms, other)
    ensures ContextWindow(ms, query) == ContextWindow(ms, other) && ModelVendor(ms, query) == ModelVendor(ms, other)
  {
    hide SameButCase, Lower, Key;
    LowerFolds(query, other);
    SameScan(ms, query, other);
  }

  lemma {:induction false} SameScan(ms: seq<ModelInfo>, query: string, other: string)
    requires Lower(query) == Lower(other)
    ensures LookupIn(ms, query) == LookupIn(ms, other)
  {
    hide Lower, Key;
    if ms != [] { SameScan(ms[1..], query, other); }
  }

  /** The first listed entry whose id begins the query. */
  predicate FirstBegins(ms: seq<ModelInfo>, query: string, i: int) {
    0 <= i < |ms| && Begins(ms[i].id, query) && forall j :: 0 <= j < i ==> !Begins(ms[j].id, query)
  }

  /** A lookup answers with exactly that entry, its window and its vendor, and with nothing when there is none. */
  lemma {:induction false} LookupIsFirstBegins(ms: seq<ModelInfo>, query: string)
    ensures LookupIn(ms, query).None? <==> forall i :: 0 <= i < |ms| ==> !Begins(ms[i].id, query)
    ensures forall i :: FirstBegins(ms, query, i) ==>
              && LookupIn(ms, query) == Some(ms[i])
              && ContextWindow(ms, query) == Some(ms[i].contextWindow) && ModelVendor(ms, query) == Some(ms[i].vendor)
  {
    hide Begins, Lower, Key;
    if ms != [] {
      BeginsFolded(ms[0], query);
      LookupIsFirstBegins(ms[1..], query);
      forall i | FirstBegins(ms, query, i) ensures LookupIn(ms, query) == Some(ms[i]) {
        if i > 0 {
          assert !Begins(ms[0].id, query);
          assert FirstBegins(ms[1..], query, i - 1);
        }
      }
    }
  }

  /** In a longest-first list of a merged table that is the longest known id that begins the query. */
  lemma LookupIsLongest(ms: seq<ModelInfo>, t: Table, query: string, m: ModelInfo)
    requires Lists(ms, t) && LongestFirst(ms) && (forall k :: k in t ==> Key(t[k]) == k)
    requires LookupIn(ms, query) == Some(m)
    ensures m in ms && Begins(m.id, query)
    ensures forall n :: n in ms && Begins(n.id, query) ==> |n.id| <= |m.id|
  {
    hide Begins, Lower, LookupIn, LongestFirst;
    ScanIsLongestPrefix(ms, t, query);
    BeginsFolded(m, query);
    forall n | n in ms && Begins(n.id, query) ensures |n.id| <= |m.id| {
      BeginsFolded(n, query);
    }
  }

  // ---------- the merge ----------

  /** No valid entry from position `i` on has the id. */
  predicate NoneValidFrom(ms: seq<ModelInfo>, i: nat, id: string) {
    forall j :: i <= j < |ms| && Valid(ms[j]) ==> !SameButCase(ms[j].id, id)
  }

  predicate NoneFrom(ms: seq<ModelInfo>, i: nat, id: string) {
    forall j :: i <= j < |ms| ==> !SameButCase(ms[j].id, id)
  }

  /** The last valid entry of its id in a layer of the file. */
  predicate LastValidAt(ms: seq<ModelInfo>, i: nat, m: ModelInfo) {
    i < |ms| && ms[i] == m && Valid(m) && NoneValidFrom(ms, i + 1, m.id)
  }

  /** The last entry of its id in the compiled layer. */
  predicate LastAt(ms: seq<ModelInfo>, i: nat, m: ModelInfo) {
    i < |ms| && ms[i] == m && NoneFrom(ms, i + 1, m.id)
  }

  ghost predicate HasLastValid(ms: seq<ModelInfo>, m: ModelInfo) { exists i :: LastValidAt(ms, i, m) }

  ghost predicate HasLast(ms: seq<ModelInfo>, m: ModelInfo) { exists i :: LastAt(ms, i, m) }

  /** The entry that stands for its id: custom before file, file before compiled, later before earlier. */
  ghost predicate Prevails(
      compiled: seq<ModelInfo>, builtin: seq<ModelInfo>, custom: seq<ModelInfo>, m: ModelInfo)
  {
    || HasLastValid(custom, m)
    || (NoneValidFrom(custom, 0, m.id) && HasLastValid(builtin, m))
    || (NoneValidFrom(custom, 0, m.id) && NoneValidFrom(builtin, 0, m.id) && HasLast(compiled, m))
  }

  lemma SameKey(a: ModelInfo, b: ModelInfo)
    ensures Key(a) == Key(b) <==> SameButCase(a.id, b.id)
  {
    LowerFolds(a.id, b.id);
  }

  lemma {:induction false} LastValidIsAt(ms: seq<ModelInfo>, m: ModelInfo)
    ensures LastValid(ms, Key(m)) == Some(m) <==> HasLastValid(ms, m)
    ensures LastValid(ms, Key(m)).None? <==> NoneValidFrom(ms, 0, m.id)
  {
    hide Key, Valid, SameButCase;
    if ms != [] {
      var n := |ms| - 1;
      SameKey(ms[n], m);
      LastValidIsAt(ms[..n], m);
      if Key(ms[n]) == Key(m) && Valid(ms[n]) {
        SameKey(m, m);
        ValidEnds(ms, m);
      } else {
        ValidStays(ms, m);
      }
    } else {
      NoneAt(ms, m);
    }
  }

  lemma NoneAt(ms: seq<ModelInfo>, m: ModelInfo)
    requires ms == []
    ensures forall i: nat :: !LastValidAt(ms, i, m) && !LastAt(ms, i, m)
  {
  }

  /** The last entry is valid and has the id. */
  lemma ValidEnds(ms: seq<ModelInfo>, m: ModelInfo)
    requires ms != [] && SameButCase(ms[|ms| - 1].id, m.id) && Valid(ms[|ms| - 1])
    ensures HasLastValid(ms, m) <==> ms[|ms| - 1] == m
    ensures !NoneValidFrom(ms, 0, m.id)
  {
    hide Valid, SameButCase;
    var n := |ms| - 1;
    if ms[n] == m { assert LastValidAt(ms, n, m); }
  }

  /** The last entry does not count. */
  lemma ValidStays(ms: seq<ModelInfo>, m: ModelInfo)
    requires ms != [] && !(SameButCase(ms[|ms| - 1].id, m.id) && Valid(ms[|ms| - 1]))
    ensures HasLastValid(ms, m) <==> HasLastValid(ms[..|ms| - 1], m)
    ensures NoneValidFrom(ms, 0, m.id) <==> NoneValidFrom(ms[..|ms| - 1], 0, m.id)
  {
    hide Valid, SameButCase;
    var n := |ms| - 1;
    SelfSame(m.id);
    if i :| LastValidAt(ms, i, m) {
      assert LastValidAt(ms[..n], i, m);
    }
    if i :| LastValidAt(ms[..n], i, m) {
      assert LastValidAt(ms, i, m);
    }
  }

  lemma SelfSame(id: string)
    ensures SameButCase(id, id)
  {
  }

  lemma {:induction false} LastIsAt(ms: seq<ModelInfo>, m: ModelInfo)
    ensures LastOf(ms, Key(m)) == Some(m) <==> HasLast(ms, m)
  {
    hide Key, SameButCase;
    if ms != [] {
      var n := |ms| - 1;
      SameKey(ms[n], m);
      SelfSame(m.id);
      LastIsAt(ms[..n], m);
      if Key(ms[n]) == Key(m) {
        if ms[n] == m { assert LastAt(ms, n, m); }
      } else {
        if i :| LastAt(ms, i, m) {
          assert LastAt(ms[..n], i, m);
        }
        if i :| LastAt(ms[..n], i, m) {
          assert LastAt(ms, i, m);
        }
      }
    } else {
      NoneAt(ms, m);
    }
  }

  lemma ListedIsInTable(ms: seq<ModelInfo>, t: Table, m: ModelInfo)
    requires Lists(ms, t)
    ensures m in ms <==> Get(t, Key(m)) == Some(m)
  {
    hide Key;
    if m in ms {
      var i :| 0 <= i < |ms| && ms[i] == m;
    }
  }

  /** The merged list holds exactly the entries that stand for their ids, ids taken without regard to case. */
  lemma MergedExactly(
      compiled: seq<ModelInfo>, builtin: seq<ModelInfo>, custom: seq<ModelInfo>, ms: seq<ModelInfo>, m: ModelInfo)
    requires Lists(ms, Merged(compiled, builtin, custom))
    ensures m in ms <==> Prevails(compiled, builtin, custom, m)
  {
    hide Key, LastOf, LastValid, Merged, Lists, NoneValidFrom, HasLastValid, HasLast;
    ListedIsInTable(ms, Merged(compiled, builtin, custom), m);
    MergedGet(compiled, builtin, custom, Key(m));
    LastValidIsAt(custom, m);
    LastValidIsAt(builtin, m);
    LastIsAt(compiled, m);
  }

  /** A compiled entry, the last of its id, gives way exactly when the file has a valid entry of that id in any case. */
  lemma OverriddenExactly(
      compiled: seq<ModelInfo>, builtin: seq<ModelInfo>, custom: seq<ModelInfo>, ms: seq<ModelInfo>, i: nat)
    requires Lists(ms, Merged(compiled, builtin, custom)) && i < |compiled| && LastAt(compiled, i, compiled[i])
    requires compiled[i] !in builtin && compiled[i] !in custom
    ensures compiled[i] !in ms <==>
            exists m :: (m in builtin || m in custom) && Valid(m) && SameButCase(m.id, compiled[i].id)
  {
    hide Lists, Merged, Valid, SameButCase, LastAt;
    var x := compiled[i];
    MergedExactly(compiled, builtin, custom, ms, x);
    NoneValidMeans(builtin, x.id);
    NoneValidMeans(custom, x.id);
    assert HasLast(compiled, x);
  }

  lemma NoneValidMeans(ms: seq<ModelInfo>, id: string)
    ensures NoneValidFrom(ms, 0, id) <==> !(exists m :: m in ms && Valid(m) && SameButCase(m.id, id))
  {
    hide Valid, SameButCase;
  }

  // ---------- which entries of the file count ----------

  /** A usable entry: an id that is not blank, and a window. */
  lemma ValidExactly(m: ModelInfo)
    ensures Valid(m) <==> m.contextWindow > 0 && exists i :: 0 <= i < |m.id| && !IsWhitespace(m.id[i])
  {
    hide IsWhitespace;
    var w, v := TrimSplit(m.id);
    BlankConcat(w, v);
    assert w + Trim(m.id) + v == if Trim(m.id) == "" then w + v else m.id;
    if Blank(m.id) {
      assert m.id + "" + "" == m.id;
      TrimUnique(m.id, "", "");
    }
  }

  /** What loading a readable file lists: its custom entries always, its other ones only if this version wrote them. */
  lemma LoadedExactly(cat: CatalogueFile, rel: Release, ms: seq<ModelInfo>, m: ModelInfo)
    requires LoadedTable(Parsed(cat), rel).Some? && Lists(ms, LoadedTable(Parsed(cat), rel).value)
    ensures m in ms <==>
            Prevails(rel.compiled, if cat.generatedBy == rel.version then cat.builtin else [], cat.custom, m)
  {
    hide Lists, Merged, Prevails;
    MergedExactly(rel.compiled, CurrentBuiltin(cat, rel.version), cat.custom, ms, m);
  }

  /** Longest id first, ids of one length by their first different character. */
  lemma ListedInOrder(ms: seq<ModelInfo>, i: nat, j: nat)
    requires Sorted(ms, Le) && i < j < |ms|
    ensures ByteLen(ms[i].id) >= ByteLen(ms[j].id)
    ensures var a, b := ms[i].id, ms[j].id;
            ByteLen(a) == ByteLen(b) ==> var k := Common(a, b); k == |a| || (k < |b| && a[k] < b[k])
  {
    hide ByteLen, TextLe;
    TextLeExactly(ms[i].id, ms[j].id);
  }
}
