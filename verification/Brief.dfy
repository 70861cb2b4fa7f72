/** The brief file: printing it, appending amendments, and reading them back (src/agent/brief.rs). */
module Brief {
  import opened Text
  import opened Decimal

  type u32 = n: nat | n < 0x1_0000_0000

  const AMENDMENTS_MARKER: string := "<!-- nanopi:amendments -->"
  const AMENDMENT_PREFIX: string := "## Amendment "

  datatype BriefSpec = BriefSpec(task: string, role: Option<string>, tools: seq<string>, model: Option<string>)

  datatype Amendment = Amendment(number: u32, text: string)

  // ---------- escaping ----------

  predicate IsMarkerLine(l: string) { Trim(l) == AMENDMENTS_MARKER }

  predicate IsStructural(l: string) { IsMarkerLine(l) || StartsWith(l, AMENDMENT_PREFIX) }

  function EscapeLine(l: string): string {
    if IsStructural(l) then "\\" + l else l
  }

  function EscapeLines(ls: seq<string>): (r: seq<string>)
    ensures |r| == |ls|
  {
    seq(|ls|, i requires 0 <= i < |ls| => EscapeLine(ls[i]))
  }

  /** A backslash goes before every line the parser would take for a marker or a heading. */
  function EscapeBody(text: string): string {
    Join(EscapeLines(Lines(text)), "\n")
  }

  /** An escaped line whose escape is removed again on reading. */
  predicate LooksEscaped(l: string) {
    l != "" && l[0] == '\\' && IsStructural(l[1..])
  }

  function UnescapeLine(l: string): string {
    if LooksEscaped(l) then l[1..] else l
  }

  function UnescapeLines(ls: seq<string>): (r: seq<string>)
    ensures |r| == |ls|
  {
    seq(|ls|, i requires 0 <= i < |ls| => UnescapeLine(ls[i]))
  }

  // ---------- printing ----------

  function OrElse(o: Option<string>, default: string): string {
    if o.Some? then o.value else default
  }

  /** The escaped text, line by line; an empty text still fills one line. */
  function BodyLines(text: string): (r: seq<string>)
    ensures r != []
  {
    if Lines(text) == [] then [""] else EscapeLines(Lines(text))
  }

  function ToolLines(tools: seq<string>): seq<string> {
    if tools == [] then []
    else ToolLines(tools[..|tools| - 1]) + BulletLines(tools[|tools| - 1])
  }

  function BulletLines(t: string): seq<string> {
    ["- " + BodyLines(t)[0]] + BodyLines(t)[1..]
  }

  /** The brief as a list of lines. */
  function WithSection(ls: seq<string>, heading: string, body: seq<string>): seq<string> {
    ls + ["", heading, ""] + body
  }

  function BriefLines(spec: BriefSpec): seq<string> {
    var tools := if spec.tools == [] then ["(all)"] else ToolLines(spec.tools);
    var a := WithSection(["# Brief"], "## Task", BodyLines(TrimEnd(spec.task)));
    var b := WithSection(a, "## Role", BodyLines(OrElse(spec.role, "(default)")));
    var c := WithSection(b, "## Tools", tools);
    WithSection(c, "## Model", BodyLines(OrElse(spec.model, "(inherit)"))) + [""] + [AMENDMENTS_MARKER]
  }

  method RenderBrief(spec: BriefSpec) returns (out: string)
    ensures out == Unlines(BriefLines(spec))
  {
    hide BodyLines, EscapeBody, Unlines, TrimEnd, BulletLines;
    out := "# Brief\n\n## Task\n\n";
    ghost var ls := ["# Brief"] + ["", "## Task", ""];
    HeadingText("# Brief", "## Task", out);
    out := out + EscapeBody(TrimEnd(spec.task));
    out := out + "\n\n## Role\n\n";
    ls := SectionText(ls, TrimEnd(spec.task), "## Role", "\n\n## Role\n\n");
    out := out + EscapeBody(OrElse(spec.role, "(default)"));
    out := out + "\n\n## Tools\n\n";
    ls := SectionText(ls, OrElse(spec.role, "(default)"), "## Tools", "\n\n## Tools\n\n");
    ghost var tools := if spec.tools == [] then ["(all)"] else ToolLines(spec.tools);
    ghost var before := ls;
    if spec.tools == [] {
      out := out + "(all)\n";
      UnlinesSnoc(ls, "(all)", "(all)\n");
    } else {
      assert before + ToolLines(spec.tools[..0]) == before;
      for i := 0 to |spec.tools|
        invariant out == Unlines(before + ToolLines(spec.tools[..i]))
      {
        var t := spec.tools[i];
        out := out + ("- " + EscapeBody(t) + "\n");
        ToolStep(before, spec.tools, i);
      }
      assert spec.tools[..|spec.tools|] == spec.tools;
    }
    ls := before + tools;
    out := out + "\n## Model\n\n";
    ls := HeadingTail(ls, "## Model", "\n## Model\n\n");
    out := out + EscapeBody(OrElse(spec.model, "(inherit)"));
    out := out + "\n\n";
    out := out + AMENDMENTS_MARKER;
    out := out + "\n";
    ls := Closing(ls, OrElse(spec.model, "(inherit)"));
  }

  lemma Closing(ls: seq<string>, text: string) returns (r: seq<string>)
    ensures r == ls + BodyLines(text) + [""] + [AMENDMENTS_MARKER]
    ensures Unlines(r) == Unlines(ls) + EscapeBody(text) + "\n\n" + AMENDMENTS_MARKER + "\n"
  {
    hide BodyLines, EscapeBody, Unlines;
    var a := ls + BodyLines(text);
    r := a + [""] + [AMENDMENTS_MARKER];
    EscapeBodyText(text);
    UnlinesAppend(ls, BodyLines(text));
    UnlinesSnoc(a, "", "\n");
    UnlinesSnoc(a + [""], AMENDMENTS_MARKER, AMENDMENTS_MARKER + "\n");
    assert "\n\n" == "\n" + "\n";
  }

  lemma ToolStep(before: seq<string>, tools: seq<string>, i: nat)
    requires i < |tools|
    ensures Unlines(before + ToolLines(tools[..i + 1]))
         == Unlines(before + ToolLines(tools[..i])) + ("- " + EscapeBody(tools[i]) + "\n")
  {
    hide BodyLines, EscapeBody, Unlines, BulletLines;
    var ls, t := before + ToolLines(tools[..i]), tools[i];
    assert tools[..i + 1][..i] == tools[..i];
    BulletText(t);
    UnlinesAppend(ls, BulletLines(t));
    assert before + ToolLines(tools[..i + 1]) == ls + BulletLines(t);
  }

  lemma UnlinesSnoc(ls: seq<string>, l: string, text: string)
    requires text == l + "\n"
    ensures Unlines(ls + [l]) == Unlines(ls) + text
  {
    UnlinesAppend(ls, [l]);
    UnlinesOne(l);
  }

  lemma EscapeBodyText(text: string)
    ensures EscapeBody(text) + "\n" == Unlines(BodyLines(text))
  {
    if Lines(text) == [] {
      UnlinesOne("");
      assert EscapeLines([]) == [];
    } else {
      JoinUnlines(EscapeLines(Lines(text)));
    }
  }

  lemma BulletText(t: string)
    ensures "- " + EscapeBody(t) + "\n" == Unlines(BulletLines(t))
  {
    hide BodyLines, EscapeBody, Unlines;
    var ls := BodyLines(t);
    EscapeBodyText(t);
    assert ls == [ls[0]] + ls[1..];
    UnlinesCons(ls[0], ls[1..]);
    UnlinesCons("- " + ls[0], ls[1..]);
    var u := Unlines(ls[1..]);
    calc {
      "- " + EscapeBody(t) + "\n";
      "- " + (EscapeBody(t) + "\n");
      "- " + (ls[0] + "\n" + u);
      ("- " + ls[0]) + "\n" + u;
    }
  }

  lemma HeadingTail(ls: seq<string>, h: string, text: string) returns (r: seq<string>)
    requires text == "\n" + h + "\n\n"
    ensures r == ls + ["", h, ""]
    ensures Unlines(r) == Unlines(ls) + text
  {
    hide Unlines;
    UnlinesSnoc(ls, "", "\n");
    UnlinesSnoc(ls + [""], h, h + "\n");
    UnlinesSnoc(ls + [""] + [h], "", "\n");
    r := ls + ["", h, ""];
    assert r == ls + [""] + [h] + [""];
    assert text == "\n" + (h + "\n") + "\n";
  }

  lemma HeadingText(a: string, h: string, text: string)
    requires text == a + "\n\n" + h + "\n\n"
    ensures Unlines([a] + ["", h, ""]) == text
  {
    hide Unlines;
    UnlinesOne(a);
    var r := HeadingTail([a], h, "\n" + h + "\n\n");
    assert r == [a, "", h, ""];
    assert text == (a + "\n") + ("\n" + h + "\n\n");
  }

  lemma SectionText(ls: seq<string>, text: string, next: string, lit: string) returns (r: seq<string>)
    requires lit == "\n\n" + next + "\n\n"
    ensures r == ls + BodyLines(text) + ["", next, ""]
    ensures Unlines(r) == Unlines(ls) + EscapeBody(text) + lit
  {
    hide BodyLines, EscapeBody, Unlines;
    EscapeBodyText(text);
    UnlinesAppend(ls, BodyLines(text));
    var tail := "\n" + next + "\n\n";
    r := HeadingTail(ls + BodyLines(text), next, tail);
    assert lit == "\n" + tail;
  }

  // ---------- appending ----------

  datatype Entry = Entry(number: u32, time: string, text: string)

  /** What one append writes; `time` is the clock reading. */
  function Chunk(e: Entry): string {
    "\n" + AMENDMENT_PREFIX + Dec(e.number) + " (" + e.time + ")\n\n" + EscapeBody(TrimEnd(e.text)) + "\n"
  }

  function Chunks(es: seq<Entry>): string {
    if es == [] then "" else Chunks(es[..|es| - 1]) + Chunk(es[|es| - 1])
  }

  // ---------- reading ----------

  /** One amendment being collected: its number and its raw pieces. */
  datatype Section = Section(number: u32, body: seq<string>)

  function ParseU32(s: string): (r: Option<u32>) {
    var p := ParseUnsigned(s, 0x1_0000_0000);
    if p.Some? then
      var n: u32 := p.value;
      Some(n)
    else None
  }

  /** The number of a heading in the bare form `N` or the timestamped form `N (<time>)`. */
  function HeadingNumber(piece: string): Option<u32> {
    var bare := TrimEol(piece);
    if !StartsWith(bare, AMENDMENT_PREFIX) then None else
      var num := bare[|AMENDMENT_PREFIX|..];
      var idx := Find(num, " (");
      ParseU32(Trim(if idx < |num| && num[|num| - 1] == ')' then num[..idx] else num))
  }

  function Feed(secs: seq<Section>, piece: string): seq<Section> {
    var h := HeadingNumber(piece);
    if h.Some? then secs + [Section(h.value, [])]
    else if secs == [] then []
    else var n := |secs| - 1; secs[n := Section(secs[n].number, secs[n].body + [piece])]
  }

  function FeedAll(secs: seq<Section>, ps: seq<string>): seq<Section> {
    if ps == [] then secs else Feed(FeedAll(secs, ps[..|ps| - 1]), ps[|ps| - 1])
  }

  function JoinBody(body: seq<string>): string {
    Join(UnescapeLines(Lines(Trim(Concat(body)))), "\n")
  }

  function Finish(s: Section): Amendment { Amendment(s.number, JoinBody(s.body)) }

  function FinishAll(secs: seq<Section>): (r: seq<Amendment>)
    ensures |r| == |secs|
  {
    seq(|secs|, i requires 0 <= i < |secs| => Finish(secs[i]))
  }

  /** The pieces after the first whole-line marker. */
  function TailPieces(ps: seq<string>): Option<seq<string>> {
    if ps == [] then None
    else if IsMarkerLine(ps[0]) then Some(ps[1..])
    else TailPieces(ps[1..])
  }

  /** A torn read drops the section still being written. */
  function Settled(secs: seq<Section>, complete: bool): seq<Section> {
    if complete || secs == [] then secs else secs[..|secs| - 1]
  }

  function Amendments(content: string, stable: bool): seq<Amendment> {
    var tail := TailPieces(SplitInclusive(content));
    if tail.None? then [] else
      FinishAll(Settled(FeedAll([], tail.value), stable || EndsLine(Concat(tail.value))))
  }

  lemma WellSplitSuffix(ps: seq<string>, i: nat)
    requires WellSplit(ps) && i <= |ps|
    ensures WellSplit(ps[i..])
    ensures SplitInclusive(Concat(ps[i..])) == ps[i..]
  {
    var qs := ps[i..];
    assert forall j :: 0 <= j < |qs| ==> qs[j] == ps[i + j];
    SplitUnique(qs);
  }

  lemma {:induction false} TailPiecesSkip(ps: seq<string>, i: nat)
    requires i <= |ps|
    requires forall j :: 0 <= j < i ==> !IsMarkerLine(ps[j])
    ensures TailPieces(ps) == TailPieces(ps[i..])
  {
    hide IsMarkerLine;
    if i == 0 {
      assert ps[0..] == ps;
    } else {
      TailPiecesSkip(ps[1..], i - 1);
      assert ps[1..][i - 1..] == ps[i..];
    }
  }

  lemma FeedAllSnoc(secs: seq<Section>, ps: seq<string>, p: string)
    ensures FeedAll(secs, ps + [p]) == Feed(FeedAll(secs, ps), p)
  {
    assert (ps + [p])[..|ps|] == ps;
  }

  /** The sections a loop state stands for: the closed ones, then the open one. */
  ghost function Collected(out: seq<Section>, current: Option<Section>): seq<Section> {
    out + if current.Some? then [current.value] else []
  }

  method ParseAmendmentsWith(content: string, stable: bool) returns (r: seq<Amendment>)
    ensures r == Amendments(content, stable)
  {
    hide Trim, Finish, Feed, TailPieces;
    var lines := SplitInclusive(content);
    var offset: nat := 0;
    var tail := None;
    var i := 0;
    while i < |lines|
      invariant 0 <= i <= |lines|
      invariant offset <= |content| && content[offset..] == Concat(lines[i..])
      invariant tail.None?
      invariant forall j :: 0 <= j < i ==> !IsMarkerLine(lines[j])
    {
      var line := lines[i];
      OffsetStep(lines, i);
      assert content[offset + |line|..] == content[offset..][|line|..];
      if Trim(line) == AMENDMENTS_MARKER {
        tail := Some(content[offset + |line|..]);
        break;
      }
      offset := offset + |line|;
      i := i + 1;
    }
    TailPiecesAt(lines, i);
    if tail.None? {
      return [];
    }
    WellSplitSuffix(lines, i + 1);
    r := CollectSections(tail.value, stable);
  }

  lemma TailPiecesAt(ps: seq<string>, i: nat)
    requires i <= |ps|
    requires forall j :: 0 <= j < i ==> !IsMarkerLine(ps[j])
    ensures i == |ps| ==> TailPieces(ps).None?
    ensures i < |ps| && IsMarkerLine(ps[i]) ==> TailPieces(ps) == Some(ps[i + 1..])
  {
    hide IsMarkerLine;
    TailPiecesSkip(ps, i);
    if i < |ps| {
      assert ps[i..][0] == ps[i] && ps[i..][1..] == ps[i + 1..];
    }
  }

  method CollectSections(tail: string, stable: bool) returns (r: seq<Amendment>)
    ensures r == FinishAll(Settled(FeedAll([], SplitInclusive(tail)), stable || EndsLine(tail)))
  {
    hide Finish, HeadingNumber;
    var ps := SplitInclusive(tail);
    var out: seq<Section> := [];
    var current: Option<Section> := None;
    for k := 0 to |ps|
      invariant Collected(out, current) == FeedAll([], ps[..k])
      invariant current.None? ==> out == []
    {
      var line := ps[k];
      assert ps[..k + 1] == ps[..k] + [line];
      FeedAllSnoc([], ps[..k], line);
      var h := HeadingNumber(line);
      if h.Some? {
        if current.Some? {
          out := out + [current.value];
        }
        current := Some(Section(h.value, []));
      } else if current.Some? {
        current := Some(Section(current.value.number, current.value.body + [line]));
      }
    }
    assert ps[..|ps|] == ps;
    r := FinishAll(out);
    if current.Some? && (stable || EndsLine(tail)) {
      r := r + [Finish(current.value)];
    }
  }

  lemma OffsetStep(ls: seq<string>, i: nat)
    requires i < |ls|
    ensures Concat(ls[..i + 1]) == Concat(ls[..i]) + ls[i]
    ensures Concat(ls[i..]) == ls[i] + Concat(ls[i + 1..])
  {
    assert ls[..i + 1] == ls[..i] + [ls[i]];
    ConcatAppend(ls[..i], [ls[i]]);
    assert Concat([ls[i]]) == ls[i];
    assert ls[i..][1..] == ls[i + 1..];
  }

  function MaxNumber(ams: seq<Amendment>): u32 {
    if ams == [] then 0 else
      var m := MaxNumber(ams[..|ams| - 1]);
      if m > ams[|ams| - 1].number then m else ams[|ams| - 1].number
  }

  /** Highest amendment number plus one, saturating; 1 when there is none. */
  function NextAmendmentNumber(content: string): u32 {
    var ams := Amendments(content, true);
    if ams == [] then 1 else
      var m := MaxNumber(ams);
      if m == 0xFFFF_FFFF then m else m + 1
  }
}
