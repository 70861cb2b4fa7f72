/** What an appended amendment reads back as, whole or torn. */
module BriefRoundTrip {
  import opened Text
  import opened Decimal
  import opened Brief

  // ---------- escaped lines are inert ----------

  predicate Inert(l: string) {
    NewlineFree(l) && !IsMarkerLine(l) && !StartsWith(l, AMENDMENT_PREFIX)
  }

  predicate AllInert(ls: seq<string>) {
    forall i :: 0 <= i < |ls| ==> Inert(ls[i])
  }

  lemma TrimKeepsSolidStart(s: string)
    requires s != "" && !IsWhitespace(s[0])
    ensures Trim(s) != "" && Trim(s)[0] == s[0]
  {
    hide IsWhitespace;
    SolidTrimStart(s);
    assert s[0..] == s;
  }

  lemma SolidStartNotMarker(s: string)
    requires s != "" && !IsWhitespace(s[0]) && s[0] != '<'
    ensures !IsMarkerLine(s)
  {
    TrimKeepsSolidStart(s);
  }

  lemma EscapedInert(l: string)
    requires NewlineFree(l)
    ensures Inert(EscapeLine(l))
  {
    hide Trim;
    if IsStructural(l) {
      SolidStartNotMarker("\\" + l);
      assert ("\\" + l)[0] == '\\';
    }
  }

  lemma BodyLinesInert(text: string)
    ensures AllInert(BodyLines(text))
  {
    hide Inert;
    var ls := Lines(text);
    LinesNewlineFree(text);
    forall i | 0 <= i < |BodyLines(text)| ensures Inert(BodyLines(text)[i]) {
      if ls == [] {
        EscapedInert("");
        assert !IsStructural("") by { TrimUnique("", "", ""); }
      } else {
        EscapedInert(ls[i]);
      }
    }
  }

  lemma PlainInert(l: string)
    requires NewlineFree(l) && l != "" && l[0] != '<' && !IsWhitespace(l[0])
    requires !StartsWith(l, AMENDMENT_PREFIX)
    ensures Inert(l)
  {
    SolidStartNotMarker(l);
  }

  lemma InertConcat(a: seq<string>, b: seq<string>)
    requires AllInert(a) && AllInert(b)
    ensures AllInert(a + b)
  {
    hide Inert;
    forall i | 0 <= i < |a + b| ensures Inert((a + b)[i]) {
      assert (a + b)[i] == if i < |a| then a[i] else b[i - |a|];
    }
  }

  lemma EmptyInert()
    ensures Inert("")
  {
    TrimUnique("", "", "");
  }

  lemma BulletInert(t: string)
    ensures AllInert(BulletLines(t))
  {
    hide IsMarkerLine, BodyLines;
    BodyLinesInert(t);
    var b := BodyLines(t);
    forall i | 0 <= i < |BulletLines(t)| ensures Inert(BulletLines(t)[i]) {
      if i == 0 {
        assert ("- " + b[0])[0] == '-';
        PlainInert("- " + b[0]);
      } else {
        assert BulletLines(t)[i] == b[i];
      }
    }
  }

  lemma {:induction false} ToolsInert(tools: seq<string>)
    ensures AllInert(ToolLines(tools))
  {
    if tools != [] {
      ToolsInert(tools[..|tools| - 1]);
      BulletInert(tools[|tools| - 1]);
      InertConcat(ToolLines(tools[..|tools| - 1]), BulletLines(tools[|tools| - 1]));
    }
  }

  lemma HeadingInert(h: string)
    requires NewlineFree(h) && h != "" && h[0] == '#' && !StartsWith(h, AMENDMENT_PREFIX)
    ensures AllInert(["", h, ""])
  {
    hide Inert, IsWhitespace, StartsWith;
    EmptyInert();
    HashIsSolid();
    PlainInert(h);
  }

  lemma HashIsSolid()
    ensures !IsWhitespace('#')
  {
  }

  // ---------- where amendments may start ----------

  /** A head: newline-free lines whose only marker is the last one. */
  predicate IsHead(ls: seq<string>) {
    && ls != [] && NewlineFreeLines(ls)
    && IsMarkerLine(ls[|ls| - 1])
    && forall i :: 0 <= i < |ls| - 1 ==> !IsMarkerLine(ls[i])
  }

  lemma MarkerIsMarker()
    ensures IsMarkerLine(AMENDMENTS_MARKER)
  {
    TrimUnique("", AMENDMENTS_MARKER, "");
  }

  lemma HeadFromInert(ls: seq<string>)
    requires AllInert(ls)
    ensures IsHead(ls + [AMENDMENTS_MARKER])
  {
    hide IsMarkerLine;
    MarkerIsMarker();
    var r := ls + [AMENDMENTS_MARKER];
    assert forall i :: 0 <= i < |ls| ==> r[i] == ls[i] && Inert(ls[i]);
  }

  /** Whatever its texts say, a rendered brief has one marker: its last line. */
  lemma BriefIsHead(spec: BriefSpec)
    ensures IsHead(BriefLines(spec))
    ensures AllInert(BriefLines(spec)[..|BriefLines(spec)| - 1])
    ensures BriefLines(spec)[|BriefLines(spec)| - 1] == AMENDMENTS_MARKER
  {
    hide AllInert, BodyLines, ToolLines, IsHead, WithSection;
    var tools := if spec.tools == [] then ["(all)"] else ToolLines(spec.tools);
    var start := ["# Brief"];
    var a := WithSection(start, "## Task", BodyLines(TrimEnd(spec.task)));
    var b := WithSection(a, "## Role", BodyLines(OrElse(spec.role, "(default)")));
    var c := WithSection(b, "## Tools", tools);
    var d := WithSection(c, "## Model", BodyLines(OrElse(spec.model, "(inherit)")));
    assert AllInert(start) by { OneInert("# Brief"); }
    assert AllInert(a) by {
      BodyLinesInert(TrimEnd(spec.task));
      InertSection(start, "## Task", BodyLines(TrimEnd(spec.task)));
    }
    assert AllInert(b) by {
      BodyLinesInert(OrElse(spec.role, "(default)"));
      InertSection(a, "## Role", BodyLines(OrElse(spec.role, "(default)")));
    }
    assert AllInert(tools) by {
      if spec.tools == [] { OneInert("(all)"); } else { ToolsInert(spec.tools); }
    }
    assert AllInert(c) by { InertSection(b, "## Tools", tools); }
    assert AllInert(d) by {
      BodyLinesInert(OrElse(spec.model, "(inherit)"));
      InertSection(c, "## Model", BodyLines(OrElse(spec.model, "(inherit)")));
    }
    BlankInert();
    InertConcat(d, [""]);
    HeadFromInert(d + [""]);
    assert (d + [""] + [AMENDMENTS_MARKER])[..|d| + 1] == d + [""];
  }

  lemma OneInert(l: string)
    requires NewlineFree(l) && l != "" && l[0] != '<' && !IsWhitespace(l[0])
    requires !StartsWith(l, AMENDMENT_PREFIX)
    ensures AllInert([l])
  {
    PlainInert(l);
  }

  lemma BlankInert()
    ensures AllInert([""])
  {
    EmptyInert();
  }

  lemma InertSection(ls: seq<string>, h: string, body: seq<string>)
    requires AllInert(ls) && AllInert(body)
    requires NewlineFree(h) && h != "" && h[0] == '#' && !StartsWith(h, AMENDMENT_PREFIX)
    ensures AllInert(WithSection(ls, h, body))
  {
    HeadingInert(h);
    InertConcat(ls, ["", h, ""]);
    InertConcat(ls + ["", h, ""], body);
  }

  // ---------- collecting sections ----------

  lemma NoHeading(l: string)
    requires Inert(l)
    ensures HeadingNumber(l + "\n").None?
  {
    hide IsMarkerLine;
    var q := l + "\n";
    var b := TrimEol(q);
    assert q[|l|] == '\n' && b == q[..|b|];
    assert b == l[..|b|];
  }

  function Heading(e: Entry): string {
    AMENDMENT_PREFIX + Dec(e.number) + " (" + e.time + ")"
  }

  lemma FindAfterDigits(d: string, rest: string)
    requires AllDigits(d)
    ensures Find(d + " (" + rest, " (") == |d|
  {
    hide Find;
    var s := d + " (" + rest;
    assert s[|d|..] == " (" + rest;
    forall k | 0 <= k < |d| ensures !(" (" <= s[k..]) {
      assert s[k..][0] == d[k] && IsDigit(d[k]);
    }
    FindUnique(s, " (", |d|);
  }

  lemma DigitsTrim(d: string)
    requires AllDigits(d) && d != ""
    ensures Trim(d) == d
  {
    assert IsDigit(d[0]) && IsDigit(d[|d| - 1]);
    TrimUnique("", d, "");
    assert "" + d + "" == d;
  }

  /** A written heading carries its number back. */
  lemma HeadingReadsBack(e: Entry)
    requires NewlineFree(e.time)
    ensures NewlineFree(Heading(e))
    ensures HeadingNumber(Heading(e) + "\n") == Some(e.number)
  {
    hide Trim, Find, Dec, ParseUnsigned, TrimEol, StartsWith, NewlineFree;
    var d := Dec(e.number);
    var num := d + " (" + (e.time + ")");
    var h := Heading(e);
    assert h == AMENDMENT_PREFIX + num && h[|AMENDMENT_PREFIX|..] == num && h[|h| - 1] == ')';
    assert StartsWith(h, AMENDMENT_PREFIX) by { PrefixOfConcat(AMENDMENT_PREFIX, num); }
    TrimEolOfLine(h);
    FindAfterDigits(d, e.time + ")");
    DigitsTrim(d);
    assert num[..|d|] == d && num[|num| - 1] == ')';
    ParseOfDec(e.number, 0x1_0000_0000);
    HeadingNewlineFree(e);
  }

  /** A heading without a time parses, too. */
  lemma BareHeadingReadsBack(number: u32)
    ensures HeadingNumber("## Amendment " + Dec(number) + "\n") == Some(number)
  {
    hide Trim, Find, Dec, ParseUnsigned, TrimEol, StartsWith;
    var d := Dec(number);
    var h := AMENDMENT_PREFIX + d;
    assert h[|AMENDMENT_PREFIX|..] == d && h[|h| - 1] == d[|d| - 1] && IsDigit(d[|d| - 1]);
    assert StartsWith(h, AMENDMENT_PREFIX) by { PrefixOfConcat(AMENDMENT_PREFIX, d); }
    TrimEolOfLine(h);
    DigitsTrim(d);
    ParseOfDec(number, 0x1_0000_0000);
  }

  lemma PrefixOfConcat(p: string, s: string)
    ensures StartsWith(p + s, p)
  {
  }

  lemma HeadingNewlineFree(e: Entry)
    requires NewlineFree(e.time)
    ensures NewlineFree(Heading(e))
  {
    hide Dec;
    var d := Dec(e.number);
    assert forall i :: 0 <= i < |d| ==> IsDigit(d[i]);
  }

  lemma TrimEolOfLine(l: string)
    requires l != "" && !IsEol(l[|l| - 1])
    ensures TrimEol(l + "\n") == l
  {
    assert (l + "\n")[..|l|] == l;
  }

  lemma {:induction false} FeedAllConcat(secs: seq<Section>, a: seq<string>, b: seq<string>)
    ensures FeedAll(secs, a + b) == FeedAll(FeedAll(secs, a), b)
  {
    hide Feed;
    if b == [] {
      assert a + b == a;
    } else {
      FeedAllConcat(secs, a, b[..|b| - 1]);
      assert (a + b)[..|a + b| - 1] == a + b[..|b| - 1];
    }
  }

  /** Pieces without a heading go to the open section, or nowhere when none is open. */
  function Extend(secs: seq<Section>, ps: seq<string>): seq<Section> {
    if secs == [] then [] else
      var n := |secs| - 1; secs[n := Section(secs[n].number, secs[n].body + ps)]
  }

  lemma {:induction false} FeedInert(secs: seq<Section>, ps: seq<string>)
    requires forall i :: 0 <= i < |ps| ==> HeadingNumber(ps[i]).None?
    ensures FeedAll(secs, ps) == Extend(secs, ps)
  {
    hide HeadingNumber;
    if ps == [] {
      if secs != [] { assert secs[|secs| - 1].body + [] == secs[|secs| - 1].body; }
    } else {
      var init, last := ps[..|ps| - 1], ps[|ps| - 1];
      FeedInert(secs, init);
      if secs != [] {
        assert secs[|secs| - 1].body + init + [last] == secs[|secs| - 1].body + ps;
      }
    }
  }

  lemma InertPieces(ls: seq<string>)
    requires AllInert(ls)
    ensures forall i :: 0 <= i < |ls| ==> HeadingNumber(Terminated(ls)[i]).None?
  {
    hide Inert, HeadingNumber;
    forall i | 0 <= i < |ls| ensures HeadingNumber(Terminated(ls)[i]).None? {
      NoHeading(ls[i]);
    }
  }

  // ---------- the whole file ----------

  predicate Timed(es: seq<Entry>) {
    forall i :: 0 <= i < |es| ==> NewlineFree(es[i].time)
  }

  function TextLines(e: Entry): seq<string> { [""] + BodyLines(TrimEnd(e.text)) }

  function ChunkLines(e: Entry): seq<string> { ["", Heading(e)] + TextLines(e) }

  function ChunksLines(es: seq<Entry>): seq<string> {
    if es == [] then [] else ChunksLines(es[..|es| - 1]) + ChunkLines(es[|es| - 1])
  }

  lemma TextLinesInert(e: Entry)
    ensures AllInert(TextLines(e))
  {
    hide Inert;
    EmptyInert();
    BodyLinesInert(TrimEnd(e.text));
    InertConcat([""], BodyLines(TrimEnd(e.text)));
  }

  lemma ChunkText(e: Entry)
    ensures Chunk(e) == Unlines(ChunkLines(e))
  {
    hide Unlines, BodyLines, EscapeBody, Dec, TrimEnd;
    var h := Heading(e);
    EscapeBodyText(TrimEnd(e.text));
    var b := BodyLines(TrimEnd(e.text));
    UnlinesCons("", b);
    UnlinesCons(h, TextLines(e));
    UnlinesCons("", [h] + TextLines(e));
    assert ChunkLines(e) == [""] + ([h] + TextLines(e));
    ChunkShape(e, h, EscapeBody(TrimEnd(e.text)), Unlines(b));
  }

  lemma ChunkShape(e: Entry, h: string, body: string, u: string)
    requires h == Heading(e) && body == EscapeBody(TrimEnd(e.text)) && body + "\n" == u
    ensures Chunk(e) == "" + "\n" + (h + "\n" + ("" + "\n" + u))
  {
    hide EscapeBody, Dec, TrimEnd;
    var d := Dec(e.number);
    calc {
      Chunk(e);
      "\n" + AMENDMENT_PREFIX + d + " (" + e.time + ")\n\n" + body + "\n";
      "\n" + AMENDMENT_PREFIX + d + " (" + e.time + ")\n\n" + (body + "\n");
      { assert ")\n\n" == ")" + "\n" + "\n"; }
      "\n" + (AMENDMENT_PREFIX + d + " (" + e.time + ")") + "\n" + "\n" + u;
      "\n" + h + "\n" + "\n" + u;
      "" + "\n" + (h + "\n" + ("" + "\n" + u));
    }
  }

  lemma {:induction false} ChunksText(es: seq<Entry>)
    ensures Chunks(es) == Unlines(ChunksLines(es))
  {
    hide Chunk, ChunkLines, Unlines;
    if es == [] {
      UnlinesEndsLine([]);
    } else {
      var init, e := es[..|es| - 1], es[|es| - 1];
      ChunksText(init);
      ChunkText(e);
      UnlinesAppend(ChunksLines(init), ChunkLines(e));
    }
  }

  lemma ChunkLinesNewlineFree(e: Entry)
    requires NewlineFree(e.time)
    ensures NewlineFreeLines(ChunkLines(e))
  {
    hide HeadingNumber, IsMarkerLine, TextLines, Heading;
    HeadingReadsBack(e);
    TextLinesInert(e);
    var ls := ChunkLines(e);
    assert forall i :: 2 <= i < |ls| ==> ls[i] == TextLines(e)[i - 2] && Inert(TextLines(e)[i - 2]);
  }

  lemma {:induction false} ChunksLinesNewlineFree(es: seq<Entry>)
    requires Timed(es)
    ensures NewlineFreeLines(ChunksLines(es))
  {
    hide ChunkLines;
    if es != [] {
      ChunksLinesNewlineFree(es[..|es| - 1]);
      ChunkLinesNewlineFree(es[|es| - 1]);
    }
  }

  function SectionOf(e: Entry): Section { Section(e.number, Terminated(TextLines(e))) }

  /** One section per entry; a later entry leaves its leading blank line in the section before it. */
  function SectionsOf(es: seq<Entry>): (r: seq<Section>)
    ensures |r| == |es|
  {
    if es == [] then [] else Extend(SectionsOf(es[..|es| - 1]), ["\n"]) + [SectionOf(es[|es| - 1])]
  }

  lemma FeedChunk(secs: seq<Section>, e: Entry)
    requires NewlineFree(e.time)
    ensures FeedAll(secs, Terminated(ChunkLines(e))) == Extend(secs, ["\n"]) + [SectionOf(e)]
  {
    hide FeedAll, Extend, ChunkLines, SectionOf, TextLines, Heading, Terminated;
    var h, t := Heading(e) + "\n", Terminated(TextLines(e));
    ChunkPieces(e);
    FeedAllConcat(secs, ["\n"], [h] + t);
    FeedBlankLine(secs);
    var s1 := Extend(secs, ["\n"]);
    FeedAllConcat(s1, [h], t);
    FeedHeading(s1, e);
    FeedText(s1, e);
  }

  lemma ChunkPieces(e: Entry)
    ensures Terminated(ChunkLines(e)) == ["\n"] + ([Heading(e) + "\n"] + Terminated(TextLines(e)))
  {
    hide TextLines, Heading;
    assert "" + "\n" == "\n";
  }

  lemma FeedBlankLine(secs: seq<Section>)
    ensures FeedAll(secs, ["\n"]) == Extend(secs, ["\n"])
  {
    hide HeadingNumber, Inert, FeedAll, Extend;
    EmptyInert();
    NoHeading("");
    assert "" + "\n" == "\n";
    FeedInert(secs, ["\n"]);
  }

  lemma FeedHeading(secs: seq<Section>, e: Entry)
    requires NewlineFree(e.time)
    ensures FeedAll(secs, [Heading(e) + "\n"]) == secs + [Section(e.number, [])]
  {
    hide HeadingNumber, Heading;
    var h := Heading(e) + "\n";
    HeadingReadsBack(e);
    assert [h][..0] == [];
    assert FeedAll(secs, []) == secs;
  }

  lemma FeedText(secs: seq<Section>, e: Entry)
    ensures FeedAll(secs + [Section(e.number, [])], Terminated(TextLines(e))) == secs + [SectionOf(e)]
  {
    hide HeadingNumber, Inert, TextLines, FeedAll, Terminated;
    var t := Terminated(TextLines(e));
    TextLinesInert(e);
    InertPieces(TextLines(e));
    FeedInert(secs + [Section(e.number, [])], t);
    assert [] + t == t;
  }

  lemma {:induction false} FeedChunks(es: seq<Entry>)
    requires Timed(es)
    ensures FeedAll([], Terminated(ChunksLines(es))) == SectionsOf(es)
  {
    hide ChunkLines, SectionOf, Feed;
    if es != [] {
      var init, e := es[..|es| - 1], es[|es| - 1];
      FeedChunks(init);
      assert Terminated(ChunksLines(es)) == Terminated(ChunksLines(init)) + Terminated(ChunkLines(e));
      FeedAllConcat([], Terminated(ChunksLines(init)), Terminated(ChunkLines(e)));
      FeedChunk(SectionsOf(init), e);
    }
  }
}
