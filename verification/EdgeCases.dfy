/** Inputs at which the expected laws of the brief format fail, each the smallest of its family. */
module EdgeCases {
  import opened Text
  import opened Decimal
  import opened Brief
  import opened BriefRoundTrip
  import opened AmendmentText
  import AmendmentFile
  import opened FrontMatter
  import FrontMatterLaws
  import Archive
  import SweepLaws

  lemma {:induction false} OneLine(text: string)
    requires text != "" && NewlineFree(text)
    ensures Lines(text) == [text]
  {
    SplitUnique([text]);
    assert Concat([text]) == text;
  }

  predicate Solid(text: string) { StartsSolid(text) && EndsSolid(text) }

  lemma SolidTrims(text: string)
    requires text != "" && Solid(text)
    ensures TrimEnd(text) == text && Trim(text) == text
  {
    hide IsWhitespace, Trim, TrimEnd;
    assert Blank("");
    TrimEndUnique(text, "");
    TrimUnique("", text, "");
    assert text + "" == text;
    assert "" + text == text;
  }

  // ---------- amendment texts ----------

  /** A line that already looks escaped loses its backslash. */
  lemma LookalikeLosesBackslash(text: string)
    requires NewlineFree(text) && Solid(text) && LooksEscaped(text)
    ensures Canon(text) == text && Recovered(text) == text[1..]
  {
    hide IsWhitespace, LooksEscaped, IsStructural, Lines, Trim, TrimEnd;
    assert text != "" && text[0] == '\\' by { LookalikeStart(text); }
    OneLine(text);
    SolidTrims(text);
    BackslashPlain(text);
    assert EscapeLines([text]) == [text];
    assert Join([text], "\n") == text;
    assert UnescapeLines([text]) == [text[1..]];
  }

  lemma LookalikeStart(text: string)
    requires LooksEscaped(text)
    ensures text != "" && text[0] == '\\'
  {
  }

  lemma BackslashPlain(text: string)
    requires text != "" && text[0] == '\\'
    ensures !IsStructural(text)
  {
    hide Trim;
    if IsStructural(text) {
      StructuralNotEscaped(text);
    }
  }

  lemma EscapedHeadingIsNotKept()
    ensures Canon("\\## Amendment 1") == "\\## Amendment 1" && Recovered("\\## Amendment 1") == "## Amendment 1"
  {
    var t := "\\## Amendment 1";
    assert t[1..] == "## Amendment 1";
    assert StartsWith(t[1..], AMENDMENT_PREFIX);
    LookalikeLosesBackslash(t);
  }

  // ---------- blocks that reader and writer see differently ----------

  const STATE_LINE: string := "state: running"

  lemma StateLineShape()
    ensures NewlineFree(STATE_LINE) && StripCr(STATE_LINE) == STATE_LINE && STATE_LINE != FENCE
    ensures TrimEol(STATE_LINE + "\n") == STATE_LINE && StartsWith(STATE_LINE, "state" + SEP)
    ensures SplitOnce(STATE_LINE) == Some(Field("state", "running"))
  {
    hide Find;
    var l := STATE_LINE;
    TrimEolStep(l, '\n');
    assert l[5..] == ": running" && l[..5] == "state" && l[7..] == "running";
    forall k | 0 <= k < 5 ensures !(SEP <= l[k..]) {
      assert l[k..][0] == l[k];
    }
    FindUnique(l, SEP, 5);
  }

  lemma StateNotFence()
    ensures !IsFence(STATE_LINE + "\n")
  {
    hide TrimEol, SplitOnce;
    StateLineShape();
  }

  lemma TrimEolStep(l: string, c: char)
    requires IsEol(c)
    ensures TrimEol(l + [c]) == TrimEol(l)
  {
    assert (l + [c])[..|l|] == l;
  }

  lemma FenceShape()
    ensures NewlineFree(FENCE) && StripCr(FENCE) == FENCE && IsFence(FENCE + "\n")
  {
    TrimEolStep(FENCE, '\n');
  }

  /** A brief cut inside its block. */
  const OPEN_LINES: seq<string> := [FENCE, STATE_LINE]

  lemma OpenPieces(f: string, l: string)
    requires NewlineFree(f) && NewlineFree(l) && IsFence(f + "\n") && !IsFence(l + "\n")
    ensures var ps := SplitInclusive(Unlines([f, l]));
            Opened(ps) && !Closed(ps) && Lines(Unlines([f, l])) == [StripCr(f), StripCr(l)]
  {
    hide Unlines, SplitInclusive, Lines, StripCr, FenceFrom, NewlineFree, IsFence;
    var ls := [f, l];
    SplitUnlines(ls);
    LinesOfUnlines(ls);
    FenceFromUnique(Terminated(ls), 1, 2);
  }

  /** On an unterminated block the reader finds the state, a set refuses, and an upsert reports success unchanged. */
  lemma UnterminatedBlock(value: string)
    ensures var content := Unlines(OPEN_LINES);
            && Get(content, "state") == Some("running")
            && SetField(content, "state", value) == None
            && UpsertField(content, "state", value) == Some(content)
  {
    hide Unlines, SplitInclusive, Lines, SplitOnce, FmValue, Opened, Closed, FieldFrom, StripCr, IsFence, TrimEol;
    FenceShape();
    StateLineShape();
    assert !IsFence(STATE_LINE + "\n") by { StateNotFence(); }
    OpenPieces(FENCE, STATE_LINE);
    FrontMatterLaws.GetLines(Unlines(OPEN_LINES), "state");
    assert OPEN_LINES[1..] == [STATE_LINE];
    FrontMatterLaws.UpsertUnterminated(Unlines(OPEN_LINES), "state", value);
  }

  /** So an agent whose brief was cut inside its block is counted by every sweep and never changed. */
  lemma CutBriefIsSweptForever()
    ensures var a := Archive.AgentFile(true, Some(Unlines(OPEN_LINES)));
            Archive.Unfinished(a) && Archive.SweepAgent(a) == a
  {
    hide SetField, Get, Unlines;
    UnterminatedBlock(Archive.INTERRUPTED);
  }

  /** The sweep counts that agent and rewrites nothing. */
  lemma CutBriefIsMiscounted(r: Archive.RunDir, current: string)
    requires Archive.Sweepable(r, current) && r.agents == [Archive.AgentFile(true, Some(Unlines(OPEN_LINES)))]
    ensures Archive.SameShape([r], Archive.SweepRuns([r], current))
    ensures Archive.CountSwept([r], current) == 1
    ensures Archive.CountRewritten([r], Archive.SweepRuns([r], current)) == 0
  {
    hide Archive.Unfinished, Archive.SweepAgent, Unlines;
    CutBriefIsSweptForever();
    assert Archive.SweepAgents(r.agents) == r.agents;
    assert [r][..0] == [] && r.agents[..0] == [];
    assert Archive.SweepRuns([r], current) == [r];
    assert Archive.CountUnfinished(r.agents) == 1 by { assert Archive.CountUnfinished([]) == 0; }
    assert Archive.CountSwept([], current) == 0;
    SweepLaws.NothingChanged(r.agents);
    assert Archive.CountRewritten([], []) == 0;
  }

  const TWO_RETURNS: string := FENCE + "\r" + "\r"

  const UNSEEN_LINES: seq<string> := [TWO_RETURNS, STATE_LINE, FENCE]

  lemma UnseenPieces(f: string, l: string, g: string)
    requires NewlineFree(f) && NewlineFree(l) && NewlineFree(g)
    requires IsFence(f + "\n") && StripCr(f) != FENCE && IsFence(g + "\n")
    requires !IsFence(l + "\n") && HasField(l + "\n", "state")
    ensures var content := Unlines([f, l, g]);
            !Visible(Lines(content)) && HasKey(SplitInclusive(content), "state")
  {
    hide Unlines, SplitInclusive, Lines, StripCr, FenceFrom, FieldFrom, NewlineFree, IsFence, HasField;
    var ls := [f, l, g];
    SplitUnlines(ls);
    LinesOfUnlines(ls);
    FenceFromUnique(Terminated(ls), 1, 2);
    FieldFromUnique(Terminated(ls), 1, "state", 1);
  }

  lemma TwoReturnsShape()
    ensures NewlineFree(TWO_RETURNS) && StripCr(TWO_RETURNS) != FENCE && IsFence(TWO_RETURNS + "\n")
  {
    hide TrimEol;
    assert |StripCr(TWO_RETURNS)| == 4;
    TrimEolStep(FENCE, '\r');
    TrimEolStep(FENCE + "\r", '\r');
    TrimEolStep(TWO_RETURNS, '\n');
    TrimEolStep(FENCE, '\n');
    FenceShape();
  }

  /** A fence line ending in two carriage returns is one to the writer and none to the reader. */
  lemma UnseenBlock(value: string)
    ensures var content := Unlines(UNSEEN_LINES);
            Get(content, "state") == None && SetField(content, "state", value).Some?
  {
    hide Unlines, SplitInclusive, Lines, SplitOnce, FmValue, Visible, HasKey, FieldFrom, StripCr, IsFence, TrimEol;
    FenceShape();
    StateLineShape();
    StateNotFence();
    TwoReturnsShape();
    assert HasField(STATE_LINE + "\n", "state");
    UnseenPieces(TWO_RETURNS, STATE_LINE, FENCE);
    FrontMatterLaws.GetLines(Unlines(UNSEEN_LINES), "state");
  }

  /** Lines behind a fence the reader sees: the second one a fence for the writers only, the third one the state. */
  const EARLY_LINES: seq<string> := [FENCE, TWO_RETURNS, STATE_LINE, FENCE]

  lemma EarlyPieces(f: string, g: string, l: string)
    requires NewlineFree(f) && NewlineFree(g) && NewlineFree(l)
    requires StripCr(f) == FENCE && IsFence(f + "\n") && StripCr(g) != FENCE && IsFence(g + "\n")
    requires !HasField(g + "\n", "state")
    ensures var content := Unlines([f, g, l, f]);
            !HasKey(SplitInclusive(content), "state") && Lines(content) == [FENCE, StripCr(g), StripCr(l), FENCE]
  {
    hide Unlines, SplitInclusive, Lines, StripCr, FenceFrom, FieldFrom, NewlineFree, IsFence, HasField;
    var ls := [f, g, l, f];
    SplitUnlines(ls);
    LinesOfUnlines(ls);
    FenceFromUnique(Terminated(ls), 1, 1);
  }

  /** Such a brief reads as running, closed and all, and no sweep can rewrite it. */
  lemma EarlyFenceHidesState()
    ensures var content := Unlines(EARLY_LINES);
            && Get(content, "state") == Some("running") && SweepLaws.ReaderCloses(Lines(content))
            && !HasKey(SplitInclusive(content), "state")
  {
    hide Unlines, SplitInclusive, Lines, SplitOnce, HasKey, FieldFrom, StripCr, IsFence, TrimEol, HasField;
    FenceShape();
    StateLineShape();
    TwoReturnsShape();
    TwoReturnsNoField();
    EarlyPieces(FENCE, TWO_RETURNS, STATE_LINE);
    var content := Unlines(EARLY_LINES);
    FrontMatterLaws.GetLines(content, "state");
    EarlyLookup(StripCr(TWO_RETURNS));
    assert Lines(content)[3] == FENCE;
  }

  lemma EarlyLookup(g: string)
    requires g != FENCE && SplitOnce(g).None?
    ensures FrontMatterLaws.LookupLines([FENCE, g, STATE_LINE, FENCE][1..], "state") == Some("running")
  {
    hide SplitOnce;
    StateLineShape();
    assert [FENCE, g, STATE_LINE, FENCE][1..] == [g, STATE_LINE, FENCE];
    assert [g, STATE_LINE, FENCE][1..] == [STATE_LINE, FENCE];
  }

  lemma TwoReturnsNoField()
    ensures !HasField(TWO_RETURNS + "\n", "state") && SplitOnce(StripCr(TWO_RETURNS)).None?
  {
    hide Find, TrimEol;
    TwoReturnsShape();
    var l := StripCr(TWO_RETURNS);
    assert l == FENCE + "\r";
    forall k | 0 <= k < |l| ensures !(SEP <= l[k..]) {
      assert l[k..][0] == l[k];
    }
    var i := Find(l, SEP);
  }

  /** Lines of a block closed for the writers only. */
  const LATE_LINES: seq<string> := [FENCE, STATE_LINE, TWO_RETURNS]

  /** There the reader finds no end of the block, and the state can still be rewritten. */
  lemma LateFenceIsSettable()
    ensures var content := Unlines(LATE_LINES);
            !SweepLaws.ReaderCloses(Lines(content)) && HasKey(SplitInclusive(content), "state")
  {
    hide Unlines, SplitInclusive, Lines, SplitOnce, HasKey, FieldFrom, StripCr, IsFence, TrimEol, HasField;
    FenceShape();
    StateLineShape();
    StateNotFence();
    TwoReturnsShape();
    assert HasField(STATE_LINE + "\n", "state") by { StateHasField(); }
    LatePieces(FENCE, STATE_LINE, TWO_RETURNS);
  }

  lemma StateHasField()
    ensures HasField(STATE_LINE + "\n", "state")
  {
    hide TrimEol;
    StateLineShape();
  }

  lemma LatePieces(f: string, l: string, g: string)
    requires NewlineFree(f) && NewlineFree(l) && NewlineFree(g)
    requires IsFence(f + "\n") && StripCr(l) != FENCE && StripCr(g) != FENCE && IsFence(g + "\n")
    requires !IsFence(l + "\n") && HasField(l + "\n", "state")
    ensures var content := Unlines([f, l, g]);
            !SweepLaws.ReaderCloses(Lines(content)) && HasKey(SplitInclusive(content), "state")
  {
    hide Unlines, SplitInclusive, Lines, StripCr, FenceFrom, FieldFrom, NewlineFree, IsFence, HasField;
    var ls := [f, l, g];
    SplitUnlines(ls);
    LinesOfUnlines(ls);
    FenceFromUnique(Terminated(ls), 1, 2);
    FieldFromUnique(Terminated(ls), 1, "state", 1);
  }

  // ---------- a field inside an amendment ----------

  /** A block cut right at the marker, which an appended text closes: the state line is part of the amendment. */
  function CutBlock(time: string, value: string): string {
    AmendmentFile.File([FENCE, AMENDMENTS_MARKER], [Entry(1, time, FieldText(value))])
  }

  function FieldText(value: string): string {
    FrontMatterLaws.Written(STATE, value) + "\n" + FENCE
  }

  /** Setting the state of such a brief rewrites the text of its amendment. */
  lemma SetEditsAmendment(time: string, v: string, w: string)
    requires NewlineFree(time)
    ensures Amendments(CutBlock(time, v), true) == [Amendment(1, FieldText(v))]
    ensures SetField(CutBlock(time, v), STATE, w) == Some(CutBlock(time, w))
  {
    hide Amendments, SetField, CutBlock, FieldText, CutLines, Heading, NewlineFree, Unlines;
    var h := Heading(Entry(1, time, FieldText(v)));
    CutBlockReads(time, v);
    CutBlockLines(time, v);
    CutBlockLines(time, w);
    HeadingTime(time, v, w);
    CutBlockSet(h, v, w);
  }

  lemma HeadingTime(time: string, v: string, w: string)
    ensures Heading(Entry(1, time, FieldText(v))) == Heading(Entry(1, time, FieldText(w)))
    ensures StartsWith(Heading(Entry(1, time, FieldText(v))), AMENDMENT_PREFIX)
  {
    hide Dec, FieldText;
    var d := Dec(1) + " (" + time + ")";
    assert Heading(Entry(1, time, FieldText(v))) == AMENDMENT_PREFIX + d;
  }

  lemma CutBlockReads(time: string, v: string)
    requires NewlineFree(time)
    ensures Amendments(CutBlock(time, v), true) == [Amendment(1, FieldText(v))]
  {
    hide IsHead, Recovered, FieldText, Amendments, AmendmentFile.File, NewlineFree;
    var h, e := [FENCE, AMENDMENTS_MARKER], Entry(1, time, FieldText(v));
    CutHead();
    AmendmentFile.AmendmentRoundTrip(h, [e], true);
    FieldTextPlain(v);
    assert AmendmentFile.Readings([e]) == [Amendment(1, Recovered(FieldText(v)))];
  }

  lemma CutHead()
    ensures IsHead([FENCE, AMENDMENTS_MARKER])
  {
    hide IsMarkerLine;
    OneInert(FENCE);
    HeadFromInert([FENCE]);
  }

  /** The lines of that brief. */
  function CutLines(heading: string, value: string): seq<string> {
    [FENCE, AMENDMENTS_MARKER, "", heading, "", FrontMatterLaws.Written(STATE, value), FENCE]
  }

  lemma CutBlockLines(time: string, v: string)
    requires NewlineFree(time)
    ensures CutBlock(time, v) == Unlines(CutLines(Heading(Entry(1, time, FieldText(v))), v))
    ensures NewlineFreeLines(CutLines(Heading(Entry(1, time, FieldText(v))), v))
  {
    hide IsHead, Unlines, FieldText, Heading, ChunkLines, ChunksLines, FrontMatterLaws.Written, NewlineFree;
    hide AmendmentFile.File;
    var h, e := [FENCE, AMENDMENTS_MARKER], Entry(1, time, FieldText(v));
    CutHead();
    AmendmentFile.FileLines(h, [e]);
    OneChunk(e);
    CutChunk(time, v);
    assert h + ["", Heading(e), "", FrontMatterLaws.Written(STATE, v), FENCE] == CutLines(Heading(e), v);
  }

  lemma OneChunk(e: Entry)
    ensures ChunksLines([e]) == ChunkLines(e)
  {
    hide ChunkLines;
    assert [e][..0] == [];
    assert [] + ChunkLines(e) == ChunkLines(e);
  }

  lemma CutChunk(time: string, v: string)
    ensures var e := Entry(1, time, FieldText(v));
            ChunkLines(e) == ["", Heading(e), "", FrontMatterLaws.Written(STATE, v), FENCE]
  {
    hide FieldText, Heading, BodyLines, TrimEnd, FrontMatterLaws.Written;
    FieldTextPlain(v);
  }

  lemma CutBlockSet(heading: string, v: string, w: string)
    requires NewlineFreeLines(CutLines(heading, v)) && StartsWith(heading, AMENDMENT_PREFIX)
    ensures SetField(Unlines(CutLines(heading, v)), STATE, w) == Some(Unlines(CutLines(heading, w)))
  {
    hide Unlines, IsFence, HasField, FrontMatterLaws.Written, FmValue, FieldLine, Ending, NewlineFree, StartsWith;
    FenceShape();
    assert CutLines(heading, v)[3] == heading;
    assert NewlineFree(STATE) && FrontMatterLaws.LineEnding("\n") by { StateFree(); }
    NoFences(heading);
    FrontMatterLaws.WrittenLine(STATE, v, "\n");
    FrontMatterLaws.EndingOfWritten(STATE, v, "\n");
    LineOfWritten(v);
    LineOfWritten(w);
    SetInCut(CutLines(heading, v), w);
    var ps, qs := Terminated(CutLines(heading, v)), Terminated(CutLines(heading, w));
    assert ps[5 := FieldLine(STATE, w, "\n")] == qs;
    assert Unlines(CutLines(heading, w)) == Concat(qs) by { UnlinesText(CutLines(heading, w)); }
  }

  lemma StateFree()
    ensures NewlineFree(STATE)
  {
  }

  lemma LineOfWritten(v: string)
    ensures FieldLine(STATE, v, "\n") == FrontMatterLaws.Written(STATE, v) + "\n"
  {
    hide FmValue;
  }

  predicate OtherLine(l: string) { !IsFence(l + "\n") && !HasField(l + "\n", STATE) }

  /** The state is set in line 5 of a block of seven. */
  lemma SetInCut(ls: seq<string>, w: string)
    requires |ls| == 7 && NewlineFreeLines(ls)
    requires IsFence(ls[0] + "\n") && IsFence(ls[6] + "\n") && !IsFence(ls[5] + "\n") && HasField(ls[5] + "\n", STATE)
    requires (forall i :: 1 <= i < 5 ==> OtherLine(ls[i])) && Ending(ls[5] + "\n") == "\n"
    ensures SetField(Unlines(ls), STATE, w) == Some(Concat(Terminated(ls)[5 := FieldLine(STATE, w, "\n")]))
  {
    hide Unlines, SplitInclusive, FenceFrom, FieldFrom, IsFence, HasField, Ending, FieldLine, Concat, NewlineFree;
    SplitUnlines(ls);
    var ps := Terminated(ls);
    assert forall i :: 1 <= i < 5 ==> ps[i] == ls[i] + "\n" && OtherLine(ls[i]);
    FenceFromUnique(ps, 1, 6);
    FieldFromUnique(ps, 1, STATE, 5);
  }

  lemma NoFences(heading: string)
    requires StartsWith(heading, AMENDMENT_PREFIX) && NewlineFree(heading)
    ensures OtherLine(AMENDMENTS_MARKER) && OtherLine("") && OtherLine(heading)
  {
    OtherStart(AMENDMENTS_MARKER);
    OtherStart(heading);
    assert TrimEol("\n") == "" by { assert "\n"[..0] == ""; }
  }

  lemma OtherStart(l: string)
    requires l != "" && l[0] != '-' && l[0] != 's' && !IsEol(l[0])
    ensures OtherLine(l)
  {
    var t, k := TrimEol(l + "\n"), STATE + SEP;
    assert t != "" ==> t[0] == l[0];
    assert k[0] == 's' && FENCE[0] == '-';
  }

  predicate PlainLine(l: string) {
    l != "" && Solid(l) && NewlineFree(l) && !IsStructural(l) && l[0] != '\\'
  }

  lemma FieldTextPlain(v: string)
    ensures Recovered(FieldText(v)) == FieldText(v)
    ensures BodyLines(TrimEnd(FieldText(v))) == [FrontMatterLaws.Written(STATE, v), FENCE]
  {
    hide FrontMatterLaws.Written, Recovered, TrimEnd, BodyLines;
    WrittenPlain(v);
    FencePlain();
    TwoPlainLines(FrontMatterLaws.Written(STATE, v), FENCE);
  }

  lemma FencePlain()
    ensures PlainLine(FENCE)
  {
    OneInert(FENCE);
  }

  lemma WrittenPlain(v: string)
    ensures PlainLine(FrontMatterLaws.Written(STATE, v))
  {
    hide FmValue, IsWhitespace;
    FmValueTidy(v);
    FmValueOneLine(v);
    var l := FrontMatterLaws.Written(STATE, v);
    assert l == "state: " + FmValue(v);
    assert l[0] == 's' && l[|l| - 1] == FmValue(v)[|FmValue(v)| - 1];
    assert !IsWhitespace('s') by { LetterSolid(); }
    PlainInert(l);
  }

  lemma LetterSolid()
    ensures !IsWhitespace('s')
  {
  }

  /** Two plain lines are written and read as they are. */
  lemma TwoPlainLines(l: string, m: string)
    requires PlainLine(l) && PlainLine(m)
    ensures var t := l + "\n" + m;
            Recovered(t) == t && BodyLines(TrimEnd(t)) == [l, m]
  {
    hide IsWhitespace, Trim, TrimEnd, IsStructural, Lines;
    var t, ls := l + "\n" + m, [l, m];
    assert Join([m], "\n") == m && Join(ls, "\n") == t;
    assert Solid(t) by { assert t[0] == l[0] && t[|t| - 1] == m[|m| - 1]; }
    SolidTrims(t);
    SolidNoReturn(l);
    SolidNoReturn(m);
    LinesOfJoin(ls);
    assert StripCrs(ls) == ls;
    assert EscapeLines(ls) == ls;
    assert UnescapeLines(ls) == ls;
  }

  lemma SolidNoReturn(l: string)
    requires l != "" && Solid(l)
    ensures StripCr(l) == l && l[|l| - 1] != '\r'
  {
  }
}
