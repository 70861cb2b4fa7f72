/** What a rendered brief says under its headings, read from the text alone (src/agent/brief.rs). */
module BriefSections {
  import opened Text
  import opened Sequences
  import Decimal
  import opened Brief
  import opened BriefRoundTrip
  import opened AmendmentText
  import AmendmentFile
  import FrontMatter
  import BriefMetadata

  // ---------- reading ----------

  const TASK: string := "## Task"
  const ROLE: string := "## Role"
  const TOOLS: string := "## Tools"
  const MODEL: string := "## Model"

  const HEADINGS: seq<string> := [TASK, ROLE, TOOLS, MODEL]

  /** The lines of a text, cut at newlines alone. */
  function RawLines(text: string): seq<string> {
    var ps := SplitInclusive(text);
    seq(|ps|, i requires 0 <= i < |ps| => if EndsLine(ps[i]) then ps[i][..|ps[i]| - 1] else ps[i])
  }

  predicate EndsSection(l: string) { l in HEADINGS || l == "<!-- nanopi:amendments -->" }

  /** What stands between a heading and the next one, less the blank line on either side. */
  function SectionIn(ls: seq<string>, heading: string): Option<seq<string>> {
    var i := IndexWhere(ls, (l: string) => l == heading);
    if i == |ls| then None else BodyOf(ls[i + 1..])
  }

  /** The lines up to the next heading, less the blank one on either side. */
  function BodyOf(rest: seq<string>): Option<seq<string>> {
    var j := IndexWhere(rest, EndsSection);
    if j < 2 || j == |rest| then None else Some(rest[1..j - 1])
  }

  function SectionOfText(text: string, heading: string): Option<seq<string>> { SectionIn(RawLines(text), heading) }

  lemma RawLinesOfUnlines(ls: seq<string>)
    requires NewlineFreeLines(ls)
    ensures RawLines(Unlines(ls)) == ls
  {
    hide Unlines, SplitInclusive, NewlineFree;
    SplitUnlines(ls);
    var ps := Terminated(ls);
    forall i | 0 <= i < |ls| ensures EndsLine(ps[i]) && ps[i][..|ps[i]| - 1] == ls[i] {
      assert ps[i] == ls[i] + "\n";
    }
  }

  // ---------- bodies under headings ----------

  predicate NoHeadingIn(body: seq<string>) {
    forall i :: 0 <= i < |body| ==> !EndsSection(body[i])
  }

  lemma {:induction false} IndexSkips<T>(a: seq<T>, b: seq<T>, wanted: T -> bool)
    requires forall k :: 0 <= k < |a| ==> !wanted(a[k])
    ensures IndexWhere(a + b, wanted) == |a| + IndexWhere(b, wanted)
  {
    if a == [] {
      assert a + b == b;
    } else {
      assert (a + b)[1..] == a[1..] + b;
      IndexSkips(a[1..], b, wanted);
    }
  }

  lemma SectionAt(before: seq<string>, heading: string, rest: seq<string>)
    requires heading !in before
    ensures SectionIn(before + ([heading] + rest), heading) == BodyOf(rest)
  {
    hide BodyOf;
    var ls := before + ([heading] + rest);
    IndexSkips(before, [heading] + rest, (l: string) => l == heading);
    assert ls[|before| + 1..] == rest;
  }

  /** A body is read whole when none of its lines looks like a heading. */
  lemma BodyFound(body: seq<string>, next: string, after: seq<string>)
    requires NoHeadingIn(body) && EndsSection(next) && !EndsSection("")
    ensures BodyOf([""] + body + [""] + ([next] + after)) == Some(body)
  {
    hide EndsSection;
    var front := [""] + body + [""];
    IndexSkips(front, [next] + after, EndsSection);
    assert (front + ([next] + after))[1..|body| + 1] == body;
  }

  /** A body with such a line is read too short. */
  lemma BodyCut(body: seq<string>, after: seq<string>)
    requires !NoHeadingIn(body)
    ensures BodyOf([""] + body + after) != Some(body)
  {
    hide EndsSection;
    var k :| 0 <= k < |body| && EndsSection(body[k]);
    assert ([""] + body + after)[k + 1] == body[k];
    assert IndexWhere([""] + body + after, EndsSection) <= k + 1;
  }

  // ---------- the four sections of a brief ----------

  /** One body under its heading, and what comes after. */
  function Laid(heading: string, body: seq<string>, after: seq<string>): seq<string> {
    [heading] + ([""] + body + [""] + after)
  }

  datatype Bodies = Bodies(task: seq<string>, role: seq<string>, tools: seq<string>, model: seq<string>)

  function AllLaid(b: Bodies, after: seq<string>): seq<string> {
    Laid(TASK, b.task, Laid(ROLE, b.role, Laid(TOOLS, b.tools, Laid(MODEL, b.model, after))))
  }

  predicate NoHeadings(b: Bodies) {
    NoHeadingIn(b.task) && NoHeadingIn(b.role) && NoHeadingIn(b.tools) && NoHeadingIn(b.model)
  }

  predicate SectionsAre(ls: seq<string>, b: Bodies) {
    && SectionIn(ls, TASK) == Some(b.task) && SectionIn(ls, ROLE) == Some(b.role)
    && SectionIn(ls, TOOLS) == Some(b.tools) && SectionIn(ls, MODEL) == Some(b.model)
  }

  lemma HeadingsEnd()
    ensures forall h :: h in HEADINGS ==> EndsSection(h)
    ensures !EndsSection("") && EndsSection(AMENDMENTS_MARKER)
    ensures TASK != ROLE && TASK != TOOLS && TASK != MODEL && ROLE != TOOLS && ROLE != MODEL && TOOLS != MODEL
  {
    assert TASK[3] == TOOLS[3] == 'T' && ROLE[3] == 'R' && MODEL[3] == 'M' && TASK[4] == 'a' && TOOLS[4] == 'o';
    assert HEADINGS[0] == TASK && HEADINGS[1] == ROLE && HEADINGS[2] == TOOLS && HEADINGS[3] == MODEL;
  }

  /** Reading the section laid behind `before`: right exactly when its body has no line like a heading. */
  lemma LaidExactly(before: seq<string>, heading: string, body: seq<string>, after: seq<string>)
    requires heading !in before && after != [] && EndsSection(after[0])
    ensures SectionIn(before + Laid(heading, body, after), heading) == Some(body) <==> NoHeadingIn(body)
  {
    hide EndsSection, SectionIn, BodyOf;
    HeadingsEnd();
    SectionAt(before, heading, [""] + body + [""] + after);
    assert after == [after[0]] + after[1..];
    if NoHeadingIn(body) {
      BodyFound(body, after[0], after[1..]);
    } else {
      BodyCut(body, [""] + after);
      assert [""] + body + ([""] + after) == [""] + body + [""] + after;
    }
  }

  /** A body without heading lines, and its heading, keep other headings away. */
  lemma NotBefore(before: seq<string>, heading: string, body: seq<string>, other: string)
    requires other !in before && other in HEADINGS && heading != other && NoHeadingIn(body)
    ensures other !in before + [heading, ""] + body + [""]
  {
    hide EndsSection;
    HeadingsEnd();
    assert other !in body;
    assert other != "" ;
  }

  lemma LaidBehind(before: seq<string>, heading: string, body: seq<string>, after: seq<string>)
    ensures before + Laid(heading, body, after) == (before + [heading, ""] + body + [""]) + after
  {
  }

  /** All four sections are read as they were laid exactly when no line of any body looks like a heading. */
  lemma SectionsReadExactly(before: seq<string>, b: Bodies, after: seq<string>)
    requires (forall h :: h in HEADINGS ==> h !in before) && after != [] && EndsSection(after[0])
    ensures SectionsAre(before + AllLaid(b, after), b) <==> NoHeadings(b)
  {
    hide EndsSection, SectionIn, NoHeadingIn, Laid;
    HeadingsEnd();
    var ls := before + AllLaid(b, after);
    var models := Laid(MODEL, b.model, after);
    var tools := Laid(TOOLS, b.tools, models);
    var roles := Laid(ROLE, b.role, tools);
    LaidStarts(MODEL, b.model, after);
    LaidStarts(TOOLS, b.tools, models);
    LaidStarts(ROLE, b.role, tools);
    LaidExactly(before, TASK, b.task, roles);
    if NoHeadingIn(b.task) {
      var first := before + [TASK, ""] + b.task + [""];
      LaidBehind(before, TASK, b.task, roles);
      Behind(before, TASK, b.task);
      LaidExactly(first, ROLE, b.role, tools);
      if NoHeadingIn(b.role) {
        var second := first + [ROLE, ""] + b.role + [""];
        LaidBehind(first, ROLE, b.role, tools);
        NotBefore(first, ROLE, b.role, TOOLS);
        NotBefore(first, ROLE, b.role, MODEL);
        LaidExactly(second, TOOLS, b.tools, models);
        if NoHeadingIn(b.tools) {
          LaidBehind(second, TOOLS, b.tools, models);
          NotBefore(second, TOOLS, b.tools, MODEL);
          LaidExactly(second + [TOOLS, ""] + b.tools + [""], MODEL, b.model, after);
        }
      }
    }
  }

  lemma LaidStarts(heading: string, body: seq<string>, after: seq<string>)
    ensures Laid(heading, body, after) != [] && Laid(heading, body, after)[0] == heading
  {
  }

  lemma Behind(before: seq<string>, heading: string, body: seq<string>)
    requires heading == TASK && NoHeadingIn(body) && forall h :: h in HEADINGS ==> h !in before
    ensures var first := before + [heading, ""] + body + [""];
            ROLE !in first && TOOLS !in first && MODEL !in first
  {
    hide NoHeadingIn;
    HeadingsEnd();
    NotBefore(before, heading, body, ROLE);
    NotBefore(before, heading, body, TOOLS);
    NotBefore(before, heading, body, MODEL);
  }

  // ---------- what the printer lays ----------

  /** The lines printed for a spec, heading by heading. */
  function SpecBodies(spec: BriefSpec): Bodies {
    Bodies(BodyLines(TrimEnd(spec.task)), BodyLines(OrElse(spec.role, "(default)")),
           if spec.tools == [] then ["(all)"] else ToolLines(spec.tools), BodyLines(OrElse(spec.model, "(inherit)")))
  }

  lemma BriefIsLaid(spec: BriefSpec)
    ensures BriefLines(spec) == ["# Brief", ""] + AllLaid(SpecBodies(spec), [AMENDMENTS_MARKER])
  {
    hide BodyLines, ToolLines, TrimEnd, Laid, WithSection;
    var b, end := SpecBodies(spec), [AMENDMENTS_MARKER];
    var models := Laid(MODEL, b.model, end);
    var tools := Laid(TOOLS, b.tools, models);
    var first := WithSection(["# Brief"], TASK, b.task);
    var second := WithSection(first, ROLE, b.role);
    var third := WithSection(second, TOOLS, b.tools);
    SectionIsLaid(["# Brief"], TASK, b.task, Laid(ROLE, b.role, tools));
    SectionIsLaid(first, ROLE, b.role, tools);
    SectionIsLaid(second, TOOLS, b.tools, models);
    SectionIsLaid(third, MODEL, b.model, end);
    assert ["# Brief"] + [""] == ["# Brief", ""];
  }

  lemma SectionIsLaid(ls: seq<string>, heading: string, body: seq<string>, after: seq<string>)
    ensures ls + [""] + Laid(heading, body, after) == WithSection(ls, heading, body) + [""] + after
  {
  }

  /** Lines in front and behind, none of those in front a heading, change nothing. */
  lemma BriefReadsExactly(before: seq<string>, spec: BriefSpec, after: seq<string>)
    requires forall h :: h in HEADINGS ==> h !in before
    ensures SectionsAre(before + BriefLines(spec) + after, SpecBodies(spec)) <==> NoHeadings(SpecBodies(spec))
  {
    hide SpecBodies, SectionsAre, NoHeadings, EndsSection, AllLaid, BriefLines;
    BriefIsLaid(spec);
    HeadingsEnd();
    var b, front := SpecBodies(spec), before + ["# Brief", ""];
    MoreBehind(b, [AMENDMENTS_MARKER], after);
    assert before + (["# Brief", ""] + AllLaid(b, [AMENDMENTS_MARKER])) + after ==
           front + AllLaid(b, [AMENDMENTS_MARKER] + after);
    TitleIsNoHeading();
    SectionsReadExactly(front, b, [AMENDMENTS_MARKER] + after);
  }

  lemma TitleIsNoHeading()
    ensures forall h :: h in HEADINGS ==> h != "# Brief" && h != ""
  {
    HeadingsEnd();
    assert forall h :: h in HEADINGS ==> h[1] == '#';
  }

  lemma MoreBehind(b: Bodies, after: seq<string>, more: seq<string>)
    ensures AllLaid(b, after) + more == AllLaid(b, after + more)
  {
    LaidMore(MODEL, b.model, after, more);
    var models := Laid(MODEL, b.model, after);
    LaidMore(TOOLS, b.tools, models, more);
    var tools := Laid(TOOLS, b.tools, models);
    LaidMore(ROLE, b.role, tools, more);
    LaidMore(TASK, b.task, Laid(ROLE, b.role, tools), more);
  }

  lemma LaidMore(heading: string, body: seq<string>, after: seq<string>, more: seq<string>)
    ensures Laid(heading, body, after) + more == Laid(heading, body, after + more)
  {
  }

  // ---------- what a section says ----------

  /** The text under a heading, its escapes removed. */
  function Said(text: string, heading: string): Option<string> {
    var body := SectionOfText(text, heading);
    if body.Some? then Some(Join(UnescapeLines(body.value), "\n")) else None
  }

  /** An escaped line is no heading and no marker, and any other line is one only if it was before. */
  lemma EscapedHeading(l: string)
    ensures EndsSection(EscapeLine(l)) <==> l in HEADINGS
  {
    hide IsMarkerLine;
    HeadingsEnd();
    MarkerIsMarker();
    assert forall h :: h in HEADINGS ==> !StartsWith(h, AMENDMENT_PREFIX) by { HeadingShapes(); }
    assert forall h :: h in HEADINGS ==> !IsMarkerLine(h) by { HeadingShapes(); }
    assert forall h :: h in HEADINGS ==> h[0] == '#' by { HeadingShapes(); }
    assert AMENDMENTS_MARKER[0] == '<';
    if IsStructural(l) { assert EscapeLine(l)[0] == '\\'; }
  }

  lemma HeadingShapes()
    ensures forall h :: h in HEADINGS ==> h != "" && h[0] == '#' && !StartsWith(h, AMENDMENT_PREFIX) && !IsMarkerLine(h)
  {
    hide IsWhitespace, IsMarkerLine;
    HashIsSolid();
    assert AMENDMENT_PREFIX[3] == 'A' && TASK[3] == 'T' && ROLE[3] == 'R' && TOOLS[3] == 'T' && MODEL[3] == 'M';
    forall h | h in HEADINGS ensures !IsMarkerLine(h) { SolidStartNotMarker(h); }
  }

  predicate NoHeadingLine(text: string) {
    forall i :: 0 <= i < |Lines(text)| ==> Lines(text)[i] !in HEADINGS
  }

  lemma BodyHeadings(text: string)
    ensures NoHeadingIn(BodyLines(text)) <==> NoHeadingLine(text)
  {
    hide EscapeLine, EndsSection, Lines;
    HeadingsEnd();
    var ls := Lines(text);
    forall i | 0 <= i < |ls| ensures EndsSection(EscapeLines(ls)[i]) <==> ls[i] in HEADINGS {
      EscapedHeading(ls[i]);
    }
  }

  lemma LineSaidExactly(l: string)
    ensures UnescapeLine(EscapeLine(l)) == l <==> !LooksEscaped(l)
  {
    hide IsStructural;
    if IsStructural(l) {
      StructuralNotEscaped(l);
      assert ("\\" + l)[1..] == l;
    }
  }

  /** A printed text reads back line by line exactly when none of its lines already looks escaped. */
  lemma BodySaidExactly(text: string)
    ensures Join(UnescapeLines(BodyLines(text)), "\n") == Unix(text) <==> NoneLooksEscaped(Lines(text))
  {
    hide Lines, LooksEscaped, EscapeLine, UnescapeLine, Join, NewlineFree;
    var ls := Lines(text);
    if ls == [] {
      NothingSaid();
    } else {
      LinesNewlineFree(text);
      var back := UnescapeLines(EscapeLines(ls));
      forall i | 0 <= i < |ls| ensures (back[i] == ls[i] <==> !LooksEscaped(ls[i])) && NewlineFree(back[i]) {
        LineSaidExactly(ls[i]);
        BackNewlineFree(ls[i]);
      }
      assert (forall i :: 0 <= i < |ls| ==> back[i] == ls[i]) <==> NoneLooksEscaped(ls);
      assert (forall i :: 0 <= i < |ls| ==> back[i] == ls[i]) <==> back == ls;
      if Join(back, "\n") == Join(ls, "\n") { JoinInjective(back, ls); }
    }
  }

  lemma BackNewlineFree(l: string)
    requires NewlineFree(l)
    ensures NewlineFree(UnescapeLine(EscapeLine(l)))
  {
    hide IsStructural;
  }

  lemma NothingSaid()
    ensures Join(UnescapeLines([""]), "\n") == Join([], "\n") == ""
  {
  }

  // ---------- the tools ----------

  const BULLET: string := "- "

  /** Each line that starts with a bullet begins an item; the others go on with it. */
  function Items(ls: seq<string>): seq<seq<string>> {
    if ls == [] then [] else
      var l, before := ls[|ls| - 1], Items(ls[..|ls| - 1]);
      if BULLET <= l then before + [[l[2..]]]
      else if before == [] then []
      else before[|before| - 1 := before[|before| - 1] + [l]]
  }

  predicate NoBulletIn(ls: seq<string>) {
    forall i :: 1 <= i < |ls| ==> !(BULLET <= ls[i])
  }

  lemma {:induction false} ItemsOfBullet(a: seq<string>, t: string, n: nat)
    requires 1 <= n <= |BodyLines(t)| && forall i :: 1 <= i < n ==> !(BULLET <= BodyLines(t)[i])
    ensures Items(a + BulletLines(t)[..n]) == Items(a) + [BodyLines(t)[..n]]
  {
    hide BodyLines;
    var b, ls := BodyLines(t), BulletLines(t);
    assert (a + ls[..n])[..|a| + n - 1] == a + ls[..n - 1] && (a + ls[..n])[|a| + n - 1] == ls[n - 1];
    if n == 1 {
      assert a + ls[..0] == a;
      assert BULLET <= ls[0] && ls[0][2..] == b[0] && b[..1] == [b[0]];
    } else {
      ItemsOfBullet(a, t, n - 1);
      assert ls[n - 1] == b[n - 1] && b[..n] == b[..n - 1] + [b[n - 1]];
    }
  }

  function ToolBodies(tools: seq<string>): (r: seq<seq<string>>)
    ensures |r| == |tools|
  {
    seq(|tools|, i requires 0 <= i < |tools| => BodyLines(tools[i]))
  }

  predicate OneItemEach(tools: seq<string>) {
    forall i :: 0 <= i < |tools| ==> NoBulletIn(BodyLines(tools[i]))
  }

  lemma {:induction false} ItemsGrow(a: seq<string>, b: seq<string>)
    ensures |Items(a + b)| >= |Items(a)|
  {
    if b == [] {
      assert a + b == a;
    } else {
      ItemsGrow(a, b[..|b| - 1]);
      assert (a + b)[..|a + b| - 1] == a + b[..|b| - 1];
    }
  }

  lemma BulletAdds(a: seq<string>, l: string, b: seq<string>)
    requires BULLET <= l
    ensures |Items(a + [l] + b)| >= |Items(a)| + 1
  {
    assert (a + [l])[..|a|] == a;
    ItemsGrow(a + [l], b);
  }

  /** A tool's lines give at least one item, and more than one when a later line starts with a bullet. */
  lemma BulletItems(a: seq<string>, t: string)
    ensures |Items(a + BulletLines(t))| > |Items(a)|
    ensures !NoBulletIn(BodyLines(t)) ==> |Items(a + BulletLines(t))| > |Items(a)| + 1
  {
    hide BodyLines, Items;
    var b, ls := BodyLines(t), BulletLines(t);
    assert BULLET <= ls[0];
    assert a + ls == a + [ls[0]] + ls[1..];
    BulletAdds(a, ls[0], ls[1..]);
    if !NoBulletIn(b) {
      var i :| 1 <= i < |b| && BULLET <= b[i];
      assert ls[i] == b[i];
      TwoBullets(a, ls, i);
    }
  }

  lemma TwoBullets(a: seq<string>, ls: seq<string>, i: nat)
    requires 1 <= i < |ls| && BULLET <= ls[0] && BULLET <= ls[i]
    ensures |Items(a + ls)| >= |Items(a)| + 2
  {
    hide Items;
    BulletAdds(a, ls[0], ls[1..i]);
    BulletAdds(a + [ls[0]] + ls[1..i], ls[i], ls[i + 1..]);
    assert a + ls == a + [ls[0]] + ls[1..i] + [ls[i]] + ls[i + 1..];
  }

  lemma {:induction false} ItemsAtLeast(tools: seq<string>)
    ensures |Items(ToolLines(tools))| >= |tools|
    ensures !OneItemEach(tools) ==> |Items(ToolLines(tools))| > |tools|
  {
    hide BulletLines, NoBulletIn, BodyLines;
    if tools != [] {
      var n := |tools| - 1;
      ItemsAtLeast(tools[..n]);
      BulletItems(ToolLines(tools[..n]), tools[n]);
      if OneItemEach(tools[..n]) && NoBulletIn(BodyLines(tools[n])) {
        assert forall i :: 0 <= i < n ==> tools[i] == tools[..n][i];
        assert OneItemEach(tools);
      }
    }
  }

  /** The bullets read back as the tools, one item each, exactly when no later line of a tool starts with a bullet. */
  lemma {:induction false} ItemsExactly(tools: seq<string>)
    ensures Items(ToolLines(tools)) == ToolBodies(tools) <==> OneItemEach(tools)
  {
    hide BulletLines, BodyLines;
    ItemsAtLeast(tools);
    if OneItemEach(tools) && tools != [] {
      var n := |tools| - 1;
      assert OneItemEach(tools[..n]);
      ItemsExactly(tools[..n]);
      ItemsOfBullet(ToolLines(tools[..n]), tools[n], |BodyLines(tools[n])|);
      WholeBullet(tools[n]);
      assert ToolBodies(tools) == ToolBodies(tools[..n]) + [BodyLines(tools[n])];
    }
  }

  lemma WholeBullet(t: string)
    ensures |BulletLines(t)| == |BodyLines(t)|
    ensures BulletLines(t)[..|BodyLines(t)|] == BulletLines(t) && BodyLines(t)[..|BodyLines(t)|] == BodyLines(t)
  {
    hide BodyLines;
  }

  /** No later line of a tool is a heading. */
  predicate NoHeadingLines(tools: seq<string>) {
    forall k :: 0 <= k < |tools| ==> forall i :: 1 <= i < |Lines(tools[k])| ==> Lines(tools[k])[i] !in HEADINGS
  }

  lemma BulletHeadings(t: string)
    ensures NoHeadingIn(BulletLines(t)) <==> forall i :: 1 <= i < |Lines(t)| ==> Lines(t)[i] !in HEADINGS
  {
    hide EscapeLine, EndsSection, Lines;
    var ls, b := Lines(t), BodyLines(t);
    HeadingShapes();
    assert !EndsSection(BULLET + b[0]) by { BulletIsNoHeading(b[0]); }
    forall i | 1 <= i < |b| ensures EndsSection(BulletLines(t)[i]) <==> ls[i] in HEADINGS {
      EscapedHeading(ls[i]);
      assert BulletLines(t)[i] == EscapeLines(ls)[i];
    }
    assert |BulletLines(t)| == |b|;
    assert ls != [] ==> |b| == |ls|;
  }

  lemma BulletIsNoHeading(l: string)
    ensures !EndsSection(BULLET + l)
  {
    HeadingShapes();
    assert (BULLET + l)[0] == '-' && AMENDMENTS_MARKER[0] == '<';
  }

  lemma NoHeadingConcat(a: seq<string>, b: seq<string>)
    ensures NoHeadingIn(a + b) <==> NoHeadingIn(a) && NoHeadingIn(b)
  {
    hide EndsSection;
    assert forall i :: 0 <= i < |a| ==> (a + b)[i] == a[i];
    assert forall i :: 0 <= i < |b| ==> (a + b)[|a| + i] == b[i];
  }

  lemma {:induction false} ToolHeadings(tools: seq<string>)
    ensures NoHeadingIn(ToolLines(tools)) <==> NoHeadingLines(tools)
  {
    hide BulletLines, EndsSection, Lines;
    if tools != [] {
      var n := |tools| - 1;
      ToolHeadings(tools[..n]);
      BulletHeadings(tools[n]);
      NoHeadingConcat(ToolLines(tools[..n]), BulletLines(tools[n]));
      assert forall k :: 0 <= k < n ==> tools[k] == tools[..n][k];
    }
  }

  // ---------- main result ----------

  /** No text of the spec has a line that equals one of the four headings. */
  predicate HeadingFree(spec: BriefSpec) {
    && NoHeadingLine(TrimEnd(spec.task)) && NoHeadingLine(OrElse(spec.role, ""))
    && NoHeadingLines(spec.tools) && NoHeadingLine(OrElse(spec.model, ""))
  }

  lemma DefaultsAreFree(o: Option<string>, default: string)
    requires default == "(default)" || default == "(inherit)"
    ensures NoHeadingLine(OrElse(o, default)) <==> NoHeadingLine(OrElse(o, ""))
    ensures Unix(default) == default && NoneLooksEscaped(Lines(default))
  {
    hide SplitInclusive;
    SplitUnique([default]);
    assert Concat([default]) == default;
    assert Lines(default) == [default];
    HeadingShapes();
    assert default !in HEADINGS;
    SplitUnique([]);
    assert Lines("") == [];
  }

  lemma SpecHeadings(spec: BriefSpec)
    ensures NoHeadings(SpecBodies(spec)) <==> HeadingFree(spec)
  {
    hide NoHeadingIn, BodyLines, NoHeadingLine, ToolLines, Lines, TrimEnd;
    BodyHeadings(TrimEnd(spec.task));
    BodyHeadings(OrElse(spec.role, "(default)"));
    BodyHeadings(OrElse(spec.model, "(inherit)"));
    DefaultsAreFree(spec.role, "(default)");
    DefaultsAreFree(spec.model, "(inherit)");
    ToolHeadings(spec.tools);
    AllIsNoHeading();
    assert spec.tools == [] ==> NoHeadingLines(spec.tools);
  }

  lemma AllIsNoHeading()
    ensures NoHeadingIn(["(all)"])
  {
    HeadingShapes();
    assert "(all)"[0] == '(' && AMENDMENTS_MARKER[0] == '<';
  }

  /** The lines in front of the brief. */
  function Front(spec: BriefSpec, meta: BriefMetadata.BriefMeta): seq<string> {
    [FrontMatter.FENCE] + BriefMetadata.FieldTexts(BriefMetadata.Fields(spec, meta)) + [FrontMatter.FENCE] + [""]
  }

  predicate NoHash(ls: seq<string>) {
    forall i :: 0 <= i < |ls| ==> ls[i] == "" || ls[i][0] != '#'
  }

  lemma NoHashNoHeading(ls: seq<string>)
    requires NoHash(ls)
    ensures forall h :: h in HEADINGS ==> h !in ls
  {
    HeadingShapes();
  }

  lemma FieldsHaveNoHash(spec: BriefSpec, meta: BriefMetadata.BriefMeta)
    ensures NoHash(BriefMetadata.FieldTexts(BriefMetadata.Fields(spec, meta)))
  {
    hide BriefMetadata.Fields;
    var fields := BriefMetadata.Fields(spec, meta);
    forall i | 0 <= i < |fields| ensures BriefMetadata.FieldText(fields[i])[0] != '#' {
      BriefMetadata.ProperFields(spec, meta, i);
      assert BriefMetadata.FieldText(fields[i])[0] == fields[i].key[0];
    }
  }

  lemma FrontHasNoHeading(spec: BriefSpec, meta: BriefMetadata.BriefMeta)
    ensures forall h :: h in HEADINGS ==> h !in Front(spec, meta)
  {
    hide BriefMetadata.Fields, BriefMetadata.FieldTexts;
    FieldsHaveNoHash(spec, meta);
    NoHashAround(BriefMetadata.FieldTexts(BriefMetadata.Fields(spec, meta)));
    NoHashNoHeading(Front(spec, meta));
  }

  lemma NoHashAround(ls: seq<string>)
    requires NoHash(ls)
    ensures NoHash([FrontMatter.FENCE] + ls + [FrontMatter.FENCE] + [""])
  {
  }

  /** The text of an agent's brief file: block, brief, and whatever was appended. */
  function BriefFile(spec: BriefSpec, meta: BriefMetadata.BriefMeta, es: seq<Entry>): string {
    AmendmentFile.File(BriefMetadata.MetaLines(spec, meta), es)
  }

  lemma BriefFileLines(spec: BriefSpec, meta: BriefMetadata.BriefMeta, es: seq<Entry>)
    requires Timed(es)
    ensures RawLines(BriefFile(spec, meta, es)) == Front(spec, meta) + BriefLines(spec) + ChunksLines(es)
  {
    hide BriefLines, BriefMetadata.Fields, BriefMetadata.FieldTexts, ChunksLines, Timed, RawLines, IsHead;
    BriefMetadata.MetaIsHead(spec, meta);
    AmendmentFile.FileLines(BriefMetadata.MetaLines(spec, meta), es);
    RawLinesOfUnlines(BriefMetadata.MetaLines(spec, meta) + ChunksLines(es));
  }

  /**
   * In an agent's brief file each section holds exactly what was printed under its heading, whatever was appended,
   * if and only if no text of the spec has a line that equals a heading.
   */
  lemma SectionsHoldExactly(spec: BriefSpec, meta: BriefMetadata.BriefMeta, es: seq<Entry>)
    requires Timed(es)
    ensures SectionsAre(RawLines(BriefFile(spec, meta, es)), SpecBodies(spec)) <==> HeadingFree(spec)
  {
    hide BriefFile, BriefLines, Front, ChunksLines, Timed, RawLines;
    hide SectionsAre, SpecBodies, HeadingFree, NoHeadings;
    BriefFileLines(spec, meta, es);
    FrontHasNoHeading(spec, meta);
    SpecHeadings(spec);
    BriefReadsExactly(Front(spec, meta), spec, ChunksLines(es));
  }

  predicate PlainText(text: string) { NoneLooksEscaped(Lines(text)) }

  /** Where no heading is forged, a section says its text, up to line endings, exactly when no line looks escaped. */
  lemma BriefSaysExactly(spec: BriefSpec, meta: BriefMetadata.BriefMeta, es: seq<Entry>)
    requires Timed(es) && HeadingFree(spec)
    ensures var text := BriefFile(spec, meta, es);
            && (Said(text, "## Task") == Some(Unix(TrimEnd(spec.task))) <==> PlainText(TrimEnd(spec.task)))
            && (Said(text, "## Role") == Some(Unix(OrElse(spec.role, "(default)"))) <==>
                PlainText(OrElse(spec.role, "")))
            && (Said(text, "## Model") == Some(Unix(OrElse(spec.model, "(inherit)"))) <==>
                PlainText(OrElse(spec.model, "")))
  {
    hide BriefFile, RawLines, SectionIn, BodyLines, ToolLines, Lines, TrimEnd, Join, HeadingFree, Timed;
    hide NoneLooksEscaped, Unix, UnescapeLines;
    SectionsHoldExactly(spec, meta, es);
    BodySaidExactly(TrimEnd(spec.task));
    BodySaidExactly(OrElse(spec.role, "(default)"));
    BodySaidExactly(OrElse(spec.model, "(inherit)"));
    PlainDefault(spec.role, "(default)");
    PlainDefault(spec.model, "(inherit)");
  }

  lemma PlainDefault(o: Option<string>, default: string)
    requires default == "(default)" || default == "(inherit)"
    ensures PlainText(OrElse(o, default)) <==> PlainText(OrElse(o, ""))
  {
    hide Lines, LooksEscaped;
    DefaultsAreFree(o, default);
    EmptyText();
  }

  /** The tools a brief names: none for all of them, else the items under the heading, their escapes removed. */
  function ToolsSaid(text: string): Option<seq<string>> {
    var body := SectionOfText(text, "## Tools");
    if body.None? || body.value == ["(all)"] then None else
      Some(SaidItems(Items(body.value)))
  }

  function SaidItems(items: seq<seq<string>>): (r: seq<string>)
    ensures |r| == |items|
  {
    seq(|items|, i requires 0 <= i < |items| => Join(UnescapeLines(items[i]), "\n"))
  }

  function UnixAll(texts: seq<string>): (r: seq<string>)
    ensures |r| == |texts|
  {
    seq(|texts|, i requires 0 <= i < |texts| => Unix(texts[i]))
  }

  /** The tools read back in order, up to line endings, when no line forges a heading, an item or an escape. */
  lemma BriefNamesTools(spec: BriefSpec, meta: BriefMetadata.BriefMeta, es: seq<Entry>)
    requires Timed(es) && HeadingFree(spec) && OneItemEach(spec.tools)
    requires forall i :: 0 <= i < |spec.tools| ==> PlainText(spec.tools[i])
    ensures ToolsSaid(BriefFile(spec, meta, es)) ==
            if spec.tools == [] then None else Some(UnixAll(spec.tools))
  {
    hide BriefFile, RawLines, SectionIn, BodyLines, Lines, Join, HeadingFree, Timed, NoneLooksEscaped;
    hide Unix, UnescapeLines, ToolLines, OneItemEach, Items;
    SectionsHoldExactly(spec, meta, es);
    if spec.tools != [] {
      ItemsExactly(spec.tools);
      ToolsAreNotAll(spec.tools);
      forall i | 0 <= i < |spec.tools|
        ensures SaidItems(ToolBodies(spec.tools))[i] == UnixAll(spec.tools)[i]
      {
        BodySaidExactly(spec.tools[i]);
      }
      assert SaidItems(ToolBodies(spec.tools)) == UnixAll(spec.tools);
    }
  }

  lemma ToolsAreNotAll(tools: seq<string>)
    requires tools != []
    ensures ToolLines(tools) != ["(all)"]
  {
    hide BodyLines;
    var t := tools[|tools| - 1];
    WholeBullet(t);
    ToolsAtLeast(tools);
    if |ToolLines(tools)| == 1 {
      assert tools == [t] && tools[..0] == [];
      assert ToolLines(tools) == BulletLines(t);
      assert ToolLines(tools)[0][0] == '-' && "(all)"[0] == '(';
    }
  }

  lemma {:induction false} ToolsAtLeast(tools: seq<string>)
    ensures |ToolLines(tools)| >= |tools|
  {
    hide BulletLines;
    if tools != [] {
      ToolsAtLeast(tools[..|tools| - 1]);
      WholeBullet(tools[|tools| - 1]);
    }
  }

  // ---------- what an append adds ----------

  /** The lines an append adds: a heading with number and time between blank lines, then the escaped text. */
  lemma AppendedLines(head: seq<string>, es: seq<Entry>, e: Entry)
    requires IsHead(head) && Timed(es) && NewlineFree(e.time)
    ensures RawLines(AmendmentFile.File(head, es + [e])) ==
            RawLines(AmendmentFile.File(head, es))
            + ["", "## Amendment " + Decimal.Dec(e.number) + " (" + e.time + ")", ""] + BodyLines(TrimEnd(e.text))
  {
    hide IsHead, BodyLines, RawLines, AmendmentFile.File, Decimal.Dec, NewlineFree, TrimEnd;
    var all := es + [e];
    assert Timed(all) && all[..|es|] == es;
    AmendmentFile.FileLines(head, es);
    AmendmentFile.FileLines(head, all);
    RawLinesOfUnlines(head + ChunksLines(es));
    RawLinesOfUnlines(head + ChunksLines(all));
    assert ChunksLines(all) == ChunksLines(es) + ChunkLines(e);
    assert head + (ChunksLines(es) + ChunkLines(e)) == head + ChunksLines(es) + ChunkLines(e);
  }
}
