/** Reading a brief while an append is still being written. */
module TornReads {
  import opened Text
  import opened Brief
  import opened BriefRoundTrip
  import opened AmendmentText
  import opened AmendmentFile

  // ---------- cutting a file anywhere ----------

  lemma {:induction false} PrefixOfUnlines(ls: seq<string>, k: nat) returns (i: nat, q: string)
    requires k <= |Unlines(ls)|
    ensures i <= |ls| && Unlines(ls)[..k] == Unlines(ls[..i]) + q
    ensures q == "" || (i < |ls| && q <= ls[i])
  {
    if ls == [] {
      UnlinesEndsLine([]);
      i, q := 0, "";
    } else {
      var l, rest := ls[0], ls[1..];
      assert ls == [l] + rest;
      UnlinesCons(l, rest);
      if k <= |l| {
        i, q := 0, l[..k];
        UnlinesEndsLine([]);
        assert Unlines(ls)[..k] == "" + q;
      } else {
        var j: nat;
        j, q := PrefixOfUnlines(rest, k - |l| - 1);
        i := j + 1;
        UnlinesCons(l, rest[..j]);
        assert ls[..i] == [l] + rest[..j];
        assert Unlines(ls)[..k] == l + "\n" + Unlines(rest)[..k - |l| - 1];
      }
    }
  }

  lemma UnlinesPrefixLength(ls: seq<string>, i: nat, m: nat)
    requires i < m <= |ls|
    ensures |Unlines(ls[..i])| + |ls[i]| < |Unlines(ls[..m])|
  {
    hide Unlines;
    var rest := ls[..m][i + 1..];
    assert ls[..m] == ls[..i] + ([ls[i]] + rest);
    UnlinesAppend(ls[..i], [ls[i]] + rest);
    UnlinesCons(ls[i], rest);
  }

  function OptionalPiece(q: string): seq<string> {
    if q == "" then [] else [q]
  }

  lemma TornPieces(ls: seq<string>, i: nat, q: string)
    requires NewlineFreeLines(ls) && i <= |ls|
    requires q == "" || (i < |ls| && q <= ls[i])
    ensures SplitInclusive(Unlines(ls[..i]) + q) == Terminated(ls[..i]) + OptionalPiece(q)
    ensures q != "" ==> NewlineFree(q) && !EndsLine(Unlines(ls[..i]) + q)
    ensures q == "" ==> Unlines(ls[..i]) + q == "" || EndsLine(Unlines(ls[..i]) + q)
  {
    hide Unlines, Terminated, SplitInclusive;
    var a := ls[..i];
    assert NewlineFreeLines(a);
    UnlinesEndsLine(a);
    if q == "" {
      assert Unlines(a) + q == Unlines(a);
      assert Terminated(a) + [] == Terminated(a);
      SplitUnlines(a);
    } else {
      PrefixNewlineFree(ls[i], q);
      SplitTornTail(a, q);
      assert (Unlines(a) + q)[|Unlines(a) + q| - 1] == q[|q| - 1];
    }
  }

  lemma PrefixNewlineFree(l: string, q: string)
    requires NewlineFree(l) && q <= l
    ensures NewlineFree(q)
    ensures q != "" ==> q[|q| - 1] != '\n'
  {
    assert forall k :: 0 <= k < |q| ==> q[k] == l[k];
  }

  // ---------- sections only grow ----------

  /** All but the last section agree, and the last one is a beginning. */
  predicate SectionPrefix(a: seq<Section>, b: seq<Section>) {
    && |a| <= |b|
    && (forall i :: 0 <= i < |a| - 1 ==> a[i] == b[i])
    && (a != [] ==> var n := |a| - 1; a[n].number == b[n].number && a[n].body <= b[n].body)
  }

  lemma FeedGrows(a: seq<Section>, secs: seq<Section>, p: string)
    requires SectionPrefix(a, secs)
    ensures SectionPrefix(a, Feed(secs, p))
  {
    hide HeadingNumber;
  }

  lemma {:induction false} FeedAllGrows(secs: seq<Section>, ps: seq<string>)
    ensures SectionPrefix(secs, FeedAll(secs, ps))
  {
    hide Feed;
    if ps != [] {
      FeedAllGrows(secs, ps[..|ps| - 1]);
      FeedGrows(secs, FeedAll(secs, ps[..|ps| - 1]), ps[|ps| - 1]);
    }
  }

  /** The sections of the first pieces begin the sections of all of them. */
  lemma FeedPrefix(ps: seq<string>, j: nat)
    requires j <= |ps|
    ensures SectionPrefix(FeedAll([], ps[..j]), FeedAll([], ps))
  {
    hide Feed, SectionPrefix;
    assert ps == ps[..j] + ps[j..];
    FeedAllConcat([], ps[..j], ps[j..]);
    FeedAllGrows(FeedAll([], ps[..j]), ps[j..]);
  }

  // ---------- headings in the appended lines ----------

  lemma OnlyHeading(e: Entry, i: nat)
    requires i < |ChunkLines(e)| && StartsWith(ChunkLines(e)[i], AMENDMENT_PREFIX)
    ensures ChunkLines(e)[i] == Heading(e)
  {
    hide IsMarkerLine, TextLines, Heading;
    TextLinesInert(e);
    assert forall k :: 2 <= k < |ChunkLines(e)| ==>
        ChunkLines(e)[k] == TextLines(e)[k - 2] && Inert(TextLines(e)[k - 2]);
  }

  lemma {:induction false} HeadingLinesParse(es: seq<Entry>, j: nat)
    requires Timed(es) && j < |ChunksLines(es)| && StartsWith(ChunksLines(es)[j], AMENDMENT_PREFIX)
    ensures HeadingNumber(ChunksLines(es)[j] + "\n").Some?
  {
    hide HeadingNumber, ChunkLines, StartsWith;
    var init, e := es[..|es| - 1], es[|es| - 1];
    var n := |ChunksLines(init)|;
    if j < n {
      HeadingLinesParse(init, j);
    } else {
      OnlyHeading(e, j - n);
      HeadingReadsBack(e);
    }
  }

  // ---------- the torn read ----------

  /** The text of an entry cut after some whole line. */
  predicate CutAtLine(text: string, e: Entry) {
    exists j :: 0 <= j <= |TextLines(e)| && text == JoinBody(Terminated(TextLines(e)[..j]))
  }

  /** `r` is the first `|r|` entries, all exact but possibly the last. */
  predicate FirstEntries(r: seq<Amendment>, es: seq<Entry>) {
    && |r| <= |es|
    && (forall i :: 0 <= i < |r| - 1 ==> r[i] == Amendment(es[i].number, Recovered(es[i].text)))
    && (r != [] ==> r[|r| - 1].number == es[|r| - 1].number && CutAtLine(r[|r| - 1].text, es[|r| - 1]))
  }

  lemma CutSection(e: Entry, tail: seq<string>, body: seq<string>)
    requires (tail == [] || tail == ["\n"]) && body <= Terminated(TextLines(e)) + tail
    ensures CutAtLine(JoinBody(body), e)
  {
    hide JoinBody, TextLines;
    var n, full := |TextLines(e)|, Terminated(TextLines(e));
    if |body| <= n {
      var j := |body|;
      assert body == Terminated(TextLines(e)[..j]) by {
        assert forall i :: 0 <= i < j ==> body[i] == (full + tail)[i] == full[i];
      }
    } else {
      assert body == full + tail;
      SectionReads(e, tail);
      SectionReads(e, []);
      assert full + [] == full && TextLines(e)[..n] == TextLines(e);
    }
  }

  lemma SectionExact(es: seq<Entry>, i: nat)
    requires i < |es|
    ensures Finish(SectionsOf(es)[i]) == Amendment(es[i].number, Recovered(es[i].text))
  {
    hide JoinBody, Recovered, TextLines;
    SectionsRead(es);
    assert FinishAll(SectionsOf(es))[i] == Readings(es)[i];
  }

  lemma PrefixReads(secs: seq<Section>, es: seq<Entry>)
    requires SectionPrefix(secs, SectionsOf(es))
    ensures FirstEntries(FinishAll(secs), es)
  {
    hide Finish, TextLines, CutAtLine, SectionsOf, Recovered;
    forall i | 0 <= i < |secs| - 1 ensures Finish(secs[i]) == Amendment(es[i].number, Recovered(es[i].text)) {
      SectionExact(es, i);
    }
    if secs != [] {
      LastReads(secs[|secs| - 1], es, |secs| - 1);
    }
  }

  lemma LastReads(s: Section, es: seq<Entry>, n: nat)
    requires n < |es| && s.number == SectionsOf(es)[n].number && s.body <= SectionsOf(es)[n].body
    ensures Finish(s).number == es[n].number && CutAtLine(Finish(s).text, es[n])
  {
    hide TextLines, CutAtLine, SectionsOf, JoinBody;
    SectionAt(es, n);
    CutSection(es[n], if n < |es| - 1 then ["\n"] else [], s.body);
  }


  /** Dropping the last section leaves only exact ones. */
  lemma SettledReads(secs: seq<Section>, es: seq<Entry>)
    requires SectionPrefix(secs, SectionsOf(es)) && secs != []
    ensures FinishAll(secs[..|secs| - 1]) == Readings(es)[..|secs| - 1]
  {
    hide Finish, Recovered;
    forall i | 0 <= i < |secs| - 1 ensures Finish(secs[i]) == Readings(es)[i] {
      SectionExact(es, i);
    }
  }

  /** Cutting before the marker line is complete reads nothing. */
  lemma TornHead(head: seq<string>, i: nat, q: string)
    requires IsHead(head) && i < |head|
    ensures TailPieces(Terminated(head[..i]) + OptionalPiece(q)) in {None, Some([])}
  {
    hide IsMarkerLine, TailPieces;
    var ps := Terminated(head[..i]) + OptionalPiece(q);
    forall j | 0 <= j < i ensures !IsMarkerLine(ps[j]) {
      assert ps[j] == head[j] + "\n";
      MarkerLineTerminated(head[j]);
    }
    TailPiecesAt(ps, i);
    if q != "" {
      assert ps[i..] == [q] && ps[i + 1..] == [];
      TailPiecesAt(ps, i);
      if !IsMarkerLine(q) { TailPiecesAt(ps, i + 1); }
    }
  }

  /** The sections collected from the first `j` appended lines. */
  function Seen(es: seq<Entry>, j: nat): seq<Section>
    requires j <= |ChunksLines(es)|
  {
    FeedAll([], Terminated(ChunksLines(es)[..j]))
  }

  lemma SeenPrefix(es: seq<Entry>, j: nat)
    requires Timed(es) && j <= |ChunksLines(es)|
    ensures SectionPrefix(Seen(es, j), SectionsOf(es))
  {
    hide SectionPrefix, FeedAll, ChunksLines;
    var cl := ChunksLines(es);
    assert Terminated(cl)[..j] == Terminated(cl[..j]);
    FeedChunks(es);
    FeedPrefix(Terminated(cl), j);
  }

  lemma SeenStep(es: seq<Entry>, j: nat)
    requires j < |ChunksLines(es)|
    ensures Seen(es, j + 1) == Feed(Seen(es, j), ChunksLines(es)[j] + "\n")
  {
    hide Feed, ChunksLines;
    var cl := ChunksLines(es);
    assert Terminated(cl[..j + 1]) == Terminated(cl[..j]) + [cl[j] + "\n"];
    FeedAllSnoc([], Terminated(cl[..j]), cl[j] + "\n");
  }

  /** A torn last line, even a torn heading, leaves every section before the dropped one exact. */
  lemma TornLast(es: seq<Entry>, j: nat, q: string)
    requires Timed(es) && j < |ChunksLines(es)| && q <= ChunksLines(es)[j]
    ensures var kept := Settled(Feed(Seen(es, j), q), false);
            && |kept| <= |es| && |kept| >= |Seen(es, j)| - 1
            && FinishAll(kept) == Readings(es)[..|kept|]
  {
    hide SectionPrefix, Seen, Finish, Readings, ChunksLines, StartsWith;
    var before := Seen(es, j);
    SeenPrefix(es, j);
    SectionPrefixLength(before, es);
    if HeadingNumber(q).Some? {
      var l := ChunksLines(es)[j];
      TornHeading(l, q);
      HeadingLinesParse(es, j);
      SeenStep(es, j);
      SeenPrefix(es, j + 1);
      SectionPrefixLength(Seen(es, j + 1), es);
      SettledReads(Seen(es, j + 1), es);
    } else if before != [] {
      SettledReads(before, es);
      assert Settled(Feed(before, q), false) == before[..|before| - 1];
    }
  }

  lemma SectionPrefixLength(a: seq<Section>, es: seq<Entry>)
    requires SectionPrefix(a, SectionsOf(es))
    ensures |a| <= |es|
  {
  }

  lemma TornHeading(l: string, q: string)
    requires q <= l && HeadingNumber(q).Some?
    ensures StartsWith(l, AMENDMENT_PREFIX)
  {
    hide Find, Trim;
    var b := TrimEol(q);
    assert b <= q && AMENDMENT_PREFIX <= b;
  }

  /** Cutting the file after `k` characters: the whole lines before the cut, then the torn one. */
  lemma CutFile(head: seq<string>, es: seq<Entry>, k: nat) returns (i: nat, q: string)
    requires IsHead(head) && Timed(es) && k <= |File(head, es)|
    ensures var ls := head + ChunksLines(es);
            && i <= |ls| && (q == "" || (i < |ls| && q <= ls[i]))
            && SplitInclusive(File(head, es)[..k]) == Terminated(ls[..i]) + OptionalPiece(q)
    ensures q != "" ==> NewlineFree(q) && !EndsLine(File(head, es)[..k])
    ensures q == "" && k > 0 ==> EndsLine(File(head, es)[..k])
    ensures forall m :: i < m <= |head + ChunksLines(es)| ==> k < |Unlines((head + ChunksLines(es))[..m])|
  {
    hide IsHead, Timed, ChunksLines, Unlines, SplitInclusive, File;
    var ls := head + ChunksLines(es);
    FileLines(head, es);
    i, q := PrefixOfUnlines(ls, k);
    TornPieces(ls, i, q);
    forall m | i < m <= |ls| ensures k < |Unlines(ls[..m])| {
      UnlinesPrefixLength(ls, i, m);
    }
  }

  lemma {:induction false} ChunksLinesPrefix(es: seq<Entry>, t: nat)
    requires t <= |es|
    ensures ChunksLines(es[..t]) <= ChunksLines(es)
  {
    hide ChunkLines;
    if t < |es| {
      var init := es[..|es| - 1];
      ChunksLinesPrefix(init, t);
      assert init[..t] == es[..t];
    } else {
      assert es[..t] == es;
    }
  }

  /** Every entry wholly before the cut has opened its section. */
  lemma SeenWhole(es: seq<Entry>, t: nat, j: nat)
    requires Timed(es) && t <= |es| && |ChunksLines(es[..t])| <= j <= |ChunksLines(es)|
    ensures |Seen(es, j)| >= t
  {
    hide ChunksLines, SectionPrefix, FeedAll, SectionsOf, Terminated, Timed;
    var cl := ChunksLines(es);
    var n := |ChunksLines(es[..t])|;
    ChunksLinesPrefix(es, t);
    assert Timed(es[..t]) by { TimedPrefix(es, t); }
    FeedChunks(es[..t]);
    assert cl[..n] == ChunksLines(es[..t]);
    TerminatedTake(cl, n, j);
    FeedPrefix(Terminated(cl[..j]), n);
    GrowsLonger(SectionsOf(es[..t]), Seen(es, j));
  }

  lemma TimedPrefix(es: seq<Entry>, t: nat)
    requires Timed(es) && t <= |es|
    ensures Timed(es[..t])
  {
  }

  lemma TerminatedTake(ls: seq<string>, n: nat, j: nat)
    requires n <= j <= |ls|
    ensures |Terminated(ls[..j])| == j && Terminated(ls[..j])[..n] == Terminated(ls[..n])
  {
  }

  lemma GrowsLonger(a: seq<Section>, b: seq<Section>)
    requires SectionPrefix(a, b)
    ensures |a| <= |b|
  {
  }

  // ---------- main result ----------

  /**
   * Any prefix of a brief, read as possibly torn, gives the first entries. All are exact when the
   * prefix does not end a line; otherwise only the last may be cut, and then after a whole line.
   * Every entry wholly inside the prefix is there, except possibly the last one read.
   */
  lemma TornRead(head: seq<string>, es: seq<Entry>, k: nat)
    requires IsHead(head) && Timed(es) && k <= |File(head, es)|
    ensures var p := File(head, es)[..k];
            var r := Amendments(p, false);
            && FirstEntries(r, es)
            && (!EndsLine(p) ==> r == Readings(es)[..|r|])
            && (forall t {:trigger es[..t]} :: 0 <= t <= |es| && |File(head, es[..t])| <= k
                  ==> |r| >= t - (if EndsLine(p) then 0 else 1))
  {
    hide IsHead, Timed, FirstEntries, Readings, File, ChunksLines, Amendments, EndsLine, SplitInclusive, Seen;
    var p := File(head, es)[..k];
    var i, q := CutFile(head, es, k);
    forall t {:trigger es[..t]} | 0 <= t <= |es| && |File(head, es[..t])| <= k
      ensures |head| + |ChunksLines(es[..t])| <= i
    {
      FileLength(head, es, t);
    }
    if i < |head| {
      assert (head + ChunksLines(es))[..i] == head[..i];
      TornHead(head, i, q);
      NothingRead(p, es);
    } else {
      var j := i - |head|;
      CutTail(head, es, j, q, p);
      TailRead(es, j, q, p);
      forall t {:trigger es[..t]} | 0 <= t <= |es| && |File(head, es[..t])| <= k
        ensures |Seen(es, j)| >= t
      {
        SeenWhole(es, t, j);
      }
    }
  }

  lemma CutTail(head: seq<string>, es: seq<Entry>, j: nat, q: string, p: string)
    requires IsHead(head) && j <= |ChunksLines(es)|
    requires SplitInclusive(p) == Terminated((head + ChunksLines(es))[..|head| + j]) + OptionalPiece(q)
    ensures TailPieces(SplitInclusive(p)) == Some(Terminated(ChunksLines(es)[..j]) + OptionalPiece(q))
    ensures p != ""
  {
    hide IsMarkerLine, ChunksLines, TailPieces, SplitInclusive;
    var ls := ChunksLines(es)[..j];
    var ps := Terminated(ls) + OptionalPiece(q);
    assert (head + ChunksLines(es))[..|head| + j] == head + ls;
    assert Terminated(head + ls) + OptionalPiece(q) == Terminated(head) + ps;
    TailAfterHead(head, ps);
    assert p == "" ==> SplitInclusive(p) == [] by { EmptySplit(); }
  }

  lemma EmptySplit()
    ensures SplitInclusive("") == []
  {
  }

  lemma NothingRead(p: string, es: seq<Entry>)
    requires TailPieces(SplitInclusive(p)) in {None, Some([])}
    ensures Amendments(p, false) == []
    ensures FirstEntries([], es) && Readings(es)[..0] == []
  {
  }

  lemma FileLength(head: seq<string>, es: seq<Entry>, t: nat)
    requires IsHead(head) && Timed(es) && t <= |es|
    ensures var m := |head| + |ChunksLines(es[..t])|;
            m <= |head + ChunksLines(es)| && |File(head, es[..t])| == |Unlines((head + ChunksLines(es))[..m])|
  {
    hide IsHead, ChunksLines, File;
    FileLines(head, es[..t]);
    ChunksLinesPrefix(es, t);
    var n := |ChunksLines(es[..t])|;
    assert (head + ChunksLines(es))[..|head| + n] == head + ChunksLines(es[..t]);
  }

  /** Reading the pieces after the marker. */
  lemma TailRead(es: seq<Entry>, j: nat, q: string, p: string)
    requires Timed(es) && j <= |ChunksLines(es)|
    requires q == "" || (j < |ChunksLines(es)| && q <= ChunksLines(es)[j] && NewlineFree(q))
    requires TailPieces(SplitInclusive(p)) == Some(Terminated(ChunksLines(es)[..j]) + OptionalPiece(q))
    requires q != "" <==> !EndsLine(p)
    ensures var r := Amendments(p, false);
            && FirstEntries(r, es)
            && (!EndsLine(p) ==> r == Readings(es)[..|r|])
            && |r| >= |Seen(es, j)| - (if EndsLine(p) then 0 else 1)
  {
    hide Readings, ChunksLines, TailPieces, SplitInclusive, FirstEntries, FeedAll, FinishAll, Feed, Timed, NewlineFree;
    var ls := ChunksLines(es)[..j];
    if q == "" {
      assert Terminated(ls) + OptionalPiece(q) == Terminated(ls);
      SeenPrefix(es, j);
      PrefixReads(Seen(es, j), es);
      WholeTail(ls);
    } else {
      TornTail(ls, q);
      TornLast(es, j, q);
      ExactEntries(es, |Settled(Feed(Seen(es, j), q), false)|);
    }
  }

  lemma WholeTail(ls: seq<string>)
    ensures var ps := Terminated(ls);
            Settled(FeedAll([], ps), false || EndsLine(Concat(ps))) == FeedAll([], ps)
  {
    UnlinesEndsLine(ls);
    if ls == [] { assert Terminated([]) == []; }
  }

  lemma TornTail(ls: seq<string>, q: string)
    requires q != "" && NewlineFree(q)
    ensures var ps := Terminated(ls) + OptionalPiece(q);
            Settled(FeedAll([], ps), false || EndsLine(Concat(ps))) ==
            Settled(Feed(FeedAll([], Terminated(ls)), q), false)
  {
    hide Feed;
    var ps := Terminated(ls) + OptionalPiece(q);
    ConcatAppend(Terminated(ls), [q]);
    assert Concat([q]) == q;
    assert q[|q| - 1] in q;
    assert !EndsLine(Concat(ps));
    FeedAllSnoc([], Terminated(ls), q);
  }


  lemma ExactEntries(es: seq<Entry>, n: nat)
    requires n <= |es|
    ensures FirstEntries(Readings(es)[..n], es)
  {
    hide Recovered, TextLines, JoinBody, CutAtLine;
    if n > 0 {
      var e := es[n - 1];
      SectionReads(e, []);
      CutSection(e, [], Terminated(TextLines(e)));
      assert Terminated(TextLines(e)) + [] == Terminated(TextLines(e));
    }
  }
}
