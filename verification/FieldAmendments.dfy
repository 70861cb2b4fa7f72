/** Setting and inserting fields leaves the amendments of a brief alone (src/agent/brief.rs). */
module FieldAmendments {
  import opened Text
  import opened Brief
  import opened BriefRoundTrip
  import opened FrontMatter
  import opened FrontMatterLaws

  // ---------- pieces before the first section ----------

  lemma {:induction false} TailOfConcat(pre: seq<string>, rest: seq<string>)
    ensures TailPieces(pre + rest) ==
            if TailPieces(pre).Some? then Some(TailPieces(pre).value + rest) else TailPieces(rest)
  {
    hide IsMarkerLine;
    if pre == [] {
      assert pre + rest == rest;
    } else {
      TailOfConcat(pre[1..], rest);
      assert (pre + rest)[1..] == pre[1..] + rest;
    }
  }

  /** No amendment is open behind these pieces: the marker has not come, or no heading has come since. */
  predicate NoneOpen(pre: seq<string>) {
    TailPieces(pre).Some? ==> FeedAll([], TailPieces(pre).value) == []
  }

  /** A line the parser passes over while no amendment is open. */
  predicate PassedOver(piece: string) { !IsMarkerLine(piece) && HeadingNumber(piece).None? }

  function AmendmentsOf(ps: seq<string>, stable: bool): seq<Amendment> {
    var tail := TailPieces(ps);
    if tail.None? then [] else
      FinishAll(Settled(FeedAll([], tail.value), stable || EndsLine(Concat(tail.value))))
  }

  lemma AmendmentsOfContent(content: string, stable: bool)
    ensures Amendments(content, stable) == AmendmentsOf(SplitInclusive(content), stable)
  {
    hide SplitInclusive, TailPieces, FeedAll, Settled, FinishAll;
  }

  /** One such line in such a place makes no difference. */
  lemma PassedOverUnseen(pre: seq<string>, p: string, post: seq<string>, stable: bool)
    requires NoneOpen(pre) && PassedOver(p)
    requires post != [] && post[|post| - 1] != ""
    ensures AmendmentsOf(pre + [p] + post, stable) == AmendmentsOf(pre + post, stable)
  {
    hide TailPieces, FeedAll, Settled, FinishAll, IsMarkerLine, HeadingNumber, EndsLine;
    assert pre + [p] + post == pre + ([p] + post);
    TailOfConcat(pre, [p] + post);
    TailOfConcat(pre, post);
    if TailPieces(pre).None? {
      TailOfConcat([p], post);
      NotMarkerAlone(p);
    } else {
      var tail := TailPieces(pre).value;
      FeedPassedOver(tail, p, post);
      assert tail + ([p] + post) == tail + [p] + post;
      SameEnd(tail + [p], post);
      SameEnd(tail, post);
    }
  }

  lemma NotMarkerAlone(p: string)
    requires !IsMarkerLine(p)
    ensures TailPieces([p]).None?
  {
    hide IsMarkerLine;
    assert [p][1..] == [];
  }

  lemma FeedPassedOver(tail: seq<string>, p: string, post: seq<string>)
    requires FeedAll([], tail) == [] && HeadingNumber(p).None?
    ensures FeedAll([], tail + ([p] + post)) == FeedAll([], tail + post)
  {
    hide HeadingNumber, FeedAll;
    FeedAllConcat([], tail, [p] + post);
    FeedAllConcat([], [p], post);
    FeedAllConcat([], tail, post);
    FeedOne(p);
  }

  lemma FeedOne(p: string)
    requires HeadingNumber(p).None?
    ensures FeedAll([], [p]) == []
  {
    hide HeadingNumber;
    assert [p][..0] == [];
    assert FeedAll([], []) == [];
  }

  lemma SameEnd(a: seq<string>, post: seq<string>)
    requires post != [] && post[|post| - 1] != ""
    ensures EndsLine(Concat(a + post)) <==> EndsLine(post[|post| - 1])
  {
    var n := |post| - 1;
    var z := post[n];
    assert a + post == (a + post[..n]) + [z];
    ConcatAppend(a + post[..n], [z]);
    assert Concat([z]) == z by { ConcatOne(z); }
    var before := Concat(a + post[..n]);
    assert (before + z)[|before + z| - 1] == z[|z| - 1];
  }

  // ---------- field lines ----------

  /** A field line is no heading unless its key starts like one. */
  lemma FieldNotHeading(p: string, key: string)
    requires HasField(p, key) && !StartsWith(key, AMENDMENT_PREFIX)
    ensures HeadingNumber(p).None?
  {
    hide TrimEol;
    var b, n := TrimEol(p), |AMENDMENT_PREFIX|;
    PrefixHasNoColon();
    assert key == b[..|key|] && b[|key|] == (key + SEP)[|key|] == ':';
    assert |key| < n ==> AMENDMENT_PREFIX[|key|] != ':';
    assert |key| >= n ==> key[..n] == b[..n];
  }

  lemma PrefixHasNoColon()
    ensures ':' !in AMENDMENT_PREFIX
  {
  }

  /** A change at this place goes unseen: no amendment is open there, and the key does not start like a heading. */
  predicate Unseen(pre: seq<string>, key: string) {
    TailPieces(pre).None? || (NoneOpen(pre) && !StartsWith(key, AMENDMENT_PREFIX))
  }

  lemma FieldUnseen(pre: seq<string>, p: string, post: seq<string>, key: string, stable: bool)
    requires Unseen(pre, key) && HasField(p, key)
    requires post != [] && post[|post| - 1] != ""
    ensures AmendmentsOf(pre + [p] + post, stable) == AmendmentsOf(pre + post, stable)
  {
    hide TailPieces, FeedAll, HasField, AmendmentsOf, IsMarkerLine, HeadingNumber, EndsLine;
    FieldNotMarker(p, key);
    if TailPieces(pre).None? {
      BeforeMarkerUnseen(pre, p, post, stable);
    } else {
      FieldNotHeading(p, key);
      PassedOverUnseen(pre, p, post, stable);
    }
  }

  lemma BeforeMarkerUnseen(pre: seq<string>, p: string, post: seq<string>, stable: bool)
    requires TailPieces(pre).None? && !IsMarkerLine(p)
    ensures AmendmentsOf(pre + [p] + post, stable) == AmendmentsOf(pre + post, stable)
  {
    hide TailPieces, FeedAll, Settled, FinishAll, IsMarkerLine, EndsLine;
    assert pre + [p] + post == pre + ([p] + post);
    TailOfConcat(pre, [p] + post);
    TailOfConcat(pre, post);
    TailOfConcat([p], post);
    NotMarkerAlone(p);
  }

  lemma ReplacedUnseen(ps: seq<string>, f: nat, p: string, key: string, stable: bool)
    requires WellSplit(ps) && f < |ps| - 1 && HasField(p, key) && HasField(ps[f], key) && Unseen(ps[..f], key)
    ensures AmendmentsOf(ps[f := p], stable) == AmendmentsOf(ps, stable)
  {
    hide AmendmentsOf, Unseen, HasField, WellSplit;
    var pre, post := ps[..f], ps[f + 1..];
    LastPieceSolid(ps);
    FieldUnseen(pre, p, post, key, stable);
    FieldUnseen(pre, ps[f], post, key, stable);
    assert ps == pre + [ps[f]] + post && ps[f := p] == pre + [p] + post;
  }

  lemma InsertedUnseen(ps: seq<string>, c: nat, p: string, key: string, stable: bool)
    requires WellSplit(ps) && c < |ps| && HasField(p, key) && Unseen(ps[..c], key)
    ensures AmendmentsOf(ps[..c] + [p] + ps[c..], stable) == AmendmentsOf(ps, stable)
  {
    hide AmendmentsOf, Unseen, HasField, WellSplit;
    var pre, post := ps[..c], ps[c..];
    LastPieceSolid(ps);
    assert post[|post| - 1] == ps[|ps| - 1];
    FieldUnseen(pre, p, post, key, stable);
    assert ps == pre + post;
  }

  // ---------- set and upsert ----------

  /** A set leaves the amendments as they are wherever no amendment is open at the field's line. */
  lemma SetKeepsAmendments(content: string, key: string, value: string, stable: bool)
    requires SetField(content, key, value).Some?
    requires var ps := SplitInclusive(content); Unseen(ps[..FieldFrom(ps, 1, key)], key)
    ensures Amendments(SetField(content, key, value).value, stable) == Amendments(content, stable)
  {
    hide FieldLine, IsFence, HasField, Ending, FenceFrom, SplitInclusive, FullLine, Torn, SetField;
    hide Amendments, AmendmentsOf, Unseen, FieldFrom;
    var ps, f, c, p := SetShape(content, key, value);
    WrittenLine(key, value, Ending(ps[f]));
    ReplacedUnseen(ps, f, p, key, stable);
    AmendmentsOfContent(content, stable);
    AmendmentsOfContent(SetField(content, key, value).value, stable);
  }

  lemma LastPieceSolid(ps: seq<string>)
    requires WellSplit(ps) && ps != []
    ensures ps[|ps| - 1] != ""
  {
  }

  /** Where an upsert writes. */
  function WritePlace(ps: seq<string>, key: string): nat {
    if HasKey(ps, key) then FieldFrom(ps, 1, key) else if ps == [] then 0 else FenceFrom(ps, 1)
  }

  /** An upsert does so too wherever no amendment is open at the place it writes to. */
  lemma UpsertKeepsAmendments(content: string, key: string, value: string, stable: bool)
    requires UpsertField(content, key, value).Some? && NewlineFree(key)
    requires var ps := SplitInclusive(content); WritePlace(ps, key) <= |ps| && Unseen(ps[..WritePlace(ps, key)], key)
    ensures Amendments(UpsertField(content, key, value).value, stable) == Amendments(content, stable)
  {
    hide FieldLine, IsFence, HasField, FenceFrom, SplitInclusive, SetField, Amendments, Unseen, FieldFrom;
    UpsertUnterminated(content, key, value);
    if HasKey(SplitInclusive(content), key) {
      UpsertIsSet(content, key, value);
      SetKeepsAmendments(content, key, value, stable);
    } else if Closed(SplitInclusive(content)) {
      InsertKeepsAmendments(content, key, value, stable);
    }
  }

  lemma UpsertIsSet(content: string, key: string, value: string)
    requires HasKey(SplitInclusive(content), key)
    ensures SetField(content, key, value).Some? && UpsertField(content, key, value) == SetField(content, key, value)
  {
    hide FieldLine, Ending, SplitInclusive;
  }

  lemma InsertKeepsAmendments(content: string, key: string, value: string, stable: bool)
    requires Closed(SplitInclusive(content)) && !HasKey(SplitInclusive(content), key) && NewlineFree(key)
    requires var ps := SplitInclusive(content); Unseen(ps[..FenceFrom(ps, 1)], key)
    ensures UpsertField(content, key, value).Some?
    ensures Amendments(UpsertField(content, key, value).value, stable) == Amendments(content, stable)
  {
    hide FieldLine, IsFence, HasField, FenceFrom, SplitInclusive, FullLine, Torn, UpsertField;
    hide Amendments, AmendmentsOf, Unseen, FieldFrom;
    var ps, c, p := InsertShape(content, key, value);
    WrittenLine(key, value, "\n");
    InsertedUnseen(ps, c, p, key, stable);
    AmendmentsOfContent(content, stable);
    AmendmentsOfContent(UpsertField(content, key, value).value, stable);
  }
}
