/** A brief with appended amendments, read whole or torn. */
module AmendmentFile {
  import opened Text
  import opened Brief
  import opened BriefRoundTrip
  import opened AmendmentText

  /** What a reader should get for the appended entries. */
  function Readings(es: seq<Entry>): (r: seq<Amendment>)
    ensures |r| == |es|
  {
    seq(|es|, i requires 0 <= i < |es| => Amendment(es[i].number, Recovered(es[i].text)))
  }

  /** The file: a head ending in the marker, then the appended chunks. */
  function File(head: seq<string>, es: seq<Entry>): string {
    Unlines(head) + Chunks(es)
  }

  // ---------- splitting the file ----------

  lemma MarkerLineTerminated(l: string)
    ensures IsMarkerLine(l + "\n") <==> IsMarkerLine(l)
  {
    hide Trim;
    SpaceIsWhitespace();
    TrimIgnoresBlankEdges("", l, "\n");
    assert "" + l + "\n" == l + "\n";
  }

  lemma TailAfterHead(head: seq<string>, ps: seq<string>)
    requires IsHead(head)
    ensures TailPieces(Terminated(head) + ps) == Some(ps)
  {
    hide IsMarkerLine, TailPieces;
    var n := |head| - 1;
    var all := Terminated(head) + ps;
    forall i | 0 <= i <= n ensures IsMarkerLine(all[i]) <==> IsMarkerLine(head[i]) {
      assert all[i] == head[i] + "\n";
      MarkerLineTerminated(head[i]);
    }
    TailPiecesAt(all, n);
    assert all[n + 1..] == ps;
  }

  lemma NewlineFreeConcat(a: seq<string>, b: seq<string>)
    requires NewlineFreeLines(a) && NewlineFreeLines(b)
    ensures NewlineFreeLines(a + b)
  {
    hide NewlineFree;
    assert forall i :: 0 <= i < |a + b| ==> (a + b)[i] == if i < |a| then a[i] else b[i - |a|];
  }

  lemma FileLines(head: seq<string>, es: seq<Entry>)
    requires IsHead(head) && Timed(es)
    ensures NewlineFreeLines(head + ChunksLines(es))
    ensures File(head, es) == Unlines(head + ChunksLines(es))
  {
    hide Unlines, IsMarkerLine;
    ChunksText(es);
    ChunksLinesNewlineFree(es);
    NewlineFreeConcat(head, ChunksLines(es));
    UnlinesAppend(head, ChunksLines(es));
  }

  // ---------- the whole file ----------

  lemma SectionReads(e: Entry, ps: seq<string>)
    requires ps == [] || ps == ["\n"]
    ensures JoinBody(Terminated(TextLines(e)) + ps) == Recovered(e.text)
  {
    hide Trim, TrimEnd, EscapeBody, BodyLines, Lines, UnescapeLines, IsWhitespace;
    var body := EscapeBody(TrimEnd(e.text));
    EscapeBodyText(TrimEnd(e.text));
    UnlinesCons("", BodyLines(TrimEnd(e.text)));
    ConcatAppend(Terminated(TextLines(e)), ps);
    var v := "\n" + Concat(ps);
    assert ps != [] ==> Concat(ps) == "\n" + Concat(ps[1..]) == "\n";
    assert Concat(Terminated(TextLines(e)) + ps) == "\n" + body + v;
    assert Blank("\n") && Blank(v) by { SpaceIsWhitespace(); }
    TrimIgnoresBlankEdges("\n", body, v);
  }

  lemma {:induction false} SectionAt(es: seq<Entry>, i: nat)
    requires i < |es|
    ensures SectionsOf(es)[i]
         == Section(es[i].number, Terminated(TextLines(es[i])) + if i < |es| - 1 then ["\n"] else [])
  {
    hide TextLines;
    var n := |es| - 1;
    var init := es[..n];
    if i == n {
      assert Terminated(TextLines(es[i])) + [] == Terminated(TextLines(es[i]));
    } else {
      SectionAt(init, i);
      assert init[i] == es[i];
      assert Terminated(TextLines(es[i])) + [] == Terminated(TextLines(es[i]));
    }
  }

  lemma SectionsRead(es: seq<Entry>)
    ensures FinishAll(SectionsOf(es)) == Readings(es)
  {
    hide JoinBody, Recovered, TextLines;
    forall i | 0 <= i < |es| ensures Finish(SectionsOf(es)[i]) == Readings(es)[i] {
      SectionAt(es, i);
      SectionReads(es[i], if i < |es| - 1 then ["\n"] else []);
    }
  }

  /** Round trip: reading the file gives exactly the appended numbers and texts, in order. */
  lemma AmendmentRoundTrip(head: seq<string>, es: seq<Entry>, stable: bool)
    requires IsHead(head) && Timed(es)
    ensures Amendments(File(head, es), stable) == Readings(es)
  {
    hide IsHead, Timed, Readings, FinishAll, SectionsOf, ChunksLines, TailPieces, FeedAll, File, Terminated;
    hide SplitInclusive;
    var ps := FileTail(head, es);
    FeedChunks(es);
    SectionsRead(es);
    if es == [] { assert Readings(es) == [] && SectionsOf(es) == []; }
  }

  lemma FileTail(head: seq<string>, es: seq<Entry>) returns (ps: seq<string>)
    requires IsHead(head) && Timed(es)
    ensures ps == Terminated(ChunksLines(es))
    ensures TailPieces(SplitInclusive(File(head, es))) == Some(ps)
    ensures es == [] || EndsLine(Concat(ps))
  {
    hide IsHead, Timed, TailPieces, ChunkLines, File, SplitInclusive;
    var cl := ChunksLines(es);
    ps := Terminated(cl);
    FileLines(head, es);
    SplitUnlines(head + cl);
    assert Terminated(head + cl) == Terminated(head) + ps;
    TailAfterHead(head, ps);
    UnlinesEndsLine(cl);
    assert es != [] ==> cl != [] by {
      if es != [] { assert |ChunkLines(es[|es| - 1])| > 0 by { ChunkLinesSome(es[|es| - 1]); } }
    }
  }

  lemma ChunkLinesSome(e: Entry)
    ensures |ChunkLines(e)| > 0
  {
  }

  /** Nothing in the brief itself ever reads as an amendment. */
  lemma BriefHasNoAmendments(spec: BriefSpec, stable: bool)
    ensures Amendments(Unlines(BriefLines(spec)), stable) == []
  {
    hide Amendments, Unlines, BriefLines, IsHead, Recovered;
    BriefIsHead(spec);
    AmendmentRoundTrip(BriefLines(spec), [], stable);
    assert Unlines(BriefLines(spec)) + "" == Unlines(BriefLines(spec));
  }

  /** A faithful text comes back as itself, up to line endings and outer whitespace. */
  lemma FaithfulTextsReadBack(head: seq<string>, es: seq<Entry>, i: nat)
    requires IsHead(head) && Timed(es) && i < |es|
    ensures var r := Amendments(File(head, es), true);
            |r| == |es| && (r[i].text == Canon(es[i].text) <==> Faithful(es[i].text))
  {
    hide IsHead, Timed, File, Canon, Faithful, Recovered, Amendments;
    AmendmentRoundTrip(head, es, true);
    ReadsBackExactly(es[i].text);
  }

  // ---------- numbering ----------

  datatype Note = Note(time: string, text: string)

  /** Appending one note after another, each with the next free number. */
  function AppendAll(content: string, notes: seq<Note>): string {
    if notes == [] then content else
      var before := AppendAll(content, notes[..|notes| - 1]);
      var n := notes[|notes| - 1];
      before + Chunk(Entry(NextAmendmentNumber(before), n.time, n.text))
  }

  /** 1, 2, 3, ... stopping at the largest 32-bit number. */
  function Numbered(notes: seq<Note>): (r: seq<Entry>)
    ensures |r| == |notes|
  {
    seq(|notes|, i requires 0 <= i < |notes| =>
      Entry(if i + 1 < 0x1_0000_0000 then i + 1 else 0xFFFF_FFFF, notes[i].time, notes[i].text))
  }

  predicate TimedNotes(notes: seq<Note>) {
    forall i :: 0 <= i < |notes| ==> NewlineFree(notes[i].time)
  }

  lemma {:induction false} MaxOfNumbered(notes: seq<Note>)
    requires notes != []
    ensures MaxNumber(Readings(Numbered(notes))) == Numbered(notes)[|notes| - 1].number
  {
    hide Recovered;
    var r, n := Readings(Numbered(notes)), |notes| - 1;
    var init := notes[..n];
    assert r[..n] == Readings(Numbered(init));
    if init != [] { MaxOfNumbered(init); }
  }

  /** Successive appends are numbered from 1 upward and saturate at the 32-bit limit. */
  lemma {:induction false} AppendsNumberUpward(head: seq<string>, notes: seq<Note>)
    requires IsHead(head) && TimedNotes(notes)
    ensures AppendAll(Unlines(head), notes) == File(head, Numbered(notes))
  {
    hide IsHead, Chunk, NextAmendmentNumber, Unlines, File, Numbered, NewlineFree;
    if notes == [] {
      EmptyFile(head);
    } else {
      var init := notes[..|notes| - 1];
      AppendsNumberUpward(head, init);
      AppendStep(head, notes);
    }
  }

  lemma EmptyFile(head: seq<string>)
    ensures File(head, Numbered([])) == Unlines(head)
  {
    assert Unlines(head) + "" == Unlines(head);
  }

  lemma AppendStep(head: seq<string>, notes: seq<Note>)
    requires IsHead(head) && TimedNotes(notes) && notes != []
    ensures var n := |notes| - 1;
            var before := File(head, Numbered(notes[..n]));
            before + Chunk(Entry(NextAmendmentNumber(before), notes[n].time, notes[n].text)) ==
            File(head, Numbered(notes))
  {
    hide IsHead, Chunk, Unlines, Recovered, Amendments;
    var n := |notes| - 1;
    var init := notes[..n];
    var es := Numbered(init);
    var before := File(head, es);
    AmendmentRoundTrip(head, es, true);
    if init != [] { MaxOfNumbered(init); }
    assert NextAmendmentNumber(before) == Numbered(notes)[n].number;
    assert Numbered(notes)[..n] == es;
    var u, c := Unlines(head), Chunk(Numbered(notes)[n]);
    assert u + Chunks(es) + c == u + (Chunks(es) + c);
  }
}
