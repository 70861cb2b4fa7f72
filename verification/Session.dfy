/** The session log: one entry per line, read back, forked at a prefix, listed and renamed (src/session.rs). */
module Session {
  import opened Text

  datatype Entry =
    | Header(version: nat, id: string, parentId: Option<string>, timestamp: string, cwd: string, model: string,
             baseUrl: string, name: Option<string>)
    | Message(role: string, content: string)
    | ToolCall(toolName: string, command: Option<string>, arguments: string)
    | ToolResult(output: string)
    | ModelChange(fromModel: string, toModel: string)
    | ThinkingChange(fromLevel: Option<string>, toLevel: Option<string>)
    | Compaction(summary: string, replacedCount: string)
    | BranchSummary(summary: string)
    | SkillInvocation(skill: string, userMessage: Option<string>)

  /** The line format of entries, left abstract. */
  datatype Codec = Codec(encode: Entry -> string, decode: string -> Option<Entry>)

  /** Encoded entries are non-blank single lines that do not end in whitespace, and decode to themselves. */
  ghost predicate Lawful(k: Codec) {
    forall e ::
      && k.decode(k.encode(e)) == Some(e)
      && NewlineFree(k.encode(e)) && k.encode(e) != "" && EndsSolid(k.encode(e))
  }

  const SESSION_VERSION: nat := 2

  datatype ReadResult = Read(header: Entry, entries: seq<Entry>) | ParseError(line: nat) | NotASession
    | UnsupportedVersion(found: nat) | NoHeader

  // ---------- reading ----------

  /** Reading from line `i` on, with what was read so far. */
  function ReadFrom(k: Codec, lines: seq<string>, i: nat, header: Option<Entry>, entries: seq<Entry>): ReadResult
    requires i <= |lines|
    decreases |lines| - i
  {
    if i == |lines| then (if header.Some? then Read(header.value, entries) else NoHeader)
    else if Trim(lines[i]) == "" then ReadFrom(k, lines, i + 1, header, entries)
    else
      var e := k.decode(lines[i]);
      if e.None? then ParseError(i + 1)
      else if i > 0 then ReadFrom(k, lines, i + 1, header, entries + [e.value])
      else if !e.value.Header? then NotASession
      else if e.value.version != SESSION_VERSION then UnsupportedVersion(e.value.version)
      else ReadFrom(k, lines, i + 1, e, entries)
  }

  function ReadText(k: Codec, text: string): ReadResult {
    ReadFrom(k, Lines(text), 0, None, [])
  }

  method ReadSession(k: Codec, text: string) returns (r: ReadResult)
    ensures r == ReadText(k, text)
  {
    hide Trim, Lines;
    var lines := Lines(text);
    var entries: seq<Entry> := [];
    var header: Option<Entry> := None;
    for i := 0 to |lines|
      invariant ReadText(k, text) == ReadFrom(k, lines, i, header, entries)
    {
      if Trim(lines[i]) == "" { continue; }
      var e := k.decode(lines[i]);
      if e.None? { return ParseError(i + 1); }
      if i == 0 {
        if !e.value.Header? { return NotASession; }
        if e.value.version != SESSION_VERSION { return UnsupportedVersion(e.value.version); }
        header := e;
        continue;
      }
      entries := entries + [e.value];
    }
    r := if header.Some? then Read(header.value, entries) else NoHeader;
  }

  // ---------- writing ----------

  function EncodeAll(k: Codec, es: seq<Entry>): (r: seq<string>)
    ensures |r| == |es|
  {
    seq(|es|, i requires 0 <= i < |es| => k.encode(es[i]))
  }

  /** A file as `append_entry` writes it: the header, then the entries. */
  function Written(k: Codec, header: Entry, es: seq<Entry>): string {
    Unlines(EncodeAll(k, [header] + es))
  }

  function Appended(k: Codec, text: string, e: Entry): string { text + k.encode(e) + "\n" }

  lemma AppendGrows(k: Codec, header: Entry, es: seq<Entry>, e: Entry)
    ensures Appended(k, Written(k, header, es), e) == Written(k, header, es + [e])
  {
    var ls := EncodeAll(k, [header] + es);
    UnlinesAppend(ls, [k.encode(e)]);
    UnlinesOne(k.encode(e));
    assert [header] + (es + [e]) == [header] + es + [e];
    assert EncodeAll(k, [header] + es + [e]) == ls + [k.encode(e)];
  }

  predicate GoodHeader(h: Entry) { h.Header? && h.version == SESSION_VERSION }

  lemma EncodedLine(k: Codec, e: Entry)
    requires Lawful(k)
    ensures NewlineFree(k.encode(e)) && StripCr(k.encode(e)) == k.encode(e) && Trim(k.encode(e)) != ""
    ensures k.decode(k.encode(e)) == Some(e)
  {
    hide IsWhitespace;
    var l := k.encode(e);
    SpaceIsWhitespace();
    var w, v := TrimSplit(l);
    BlankConcat(w, v);
    assert Trim(l) == "" ==> l == w + v;
    assert w + v != "" ==> IsWhitespace((w + v)[|w + v| - 1]);
  }

  lemma WrittenLines(k: Codec, header: Entry, es: seq<Entry>)
    requires Lawful(k)
    ensures Lines(Written(k, header, es)) == EncodeAll(k, [header] + es)
  {
    hide Trim, StripCr, Lawful, NewlineFree;
    var all := [header] + es;
    var ls := EncodeAll(k, all);
    forall i | 0 <= i < |all| ensures NewlineFree(ls[i]) && StripCr(ls[i]) == ls[i] { EncodedLine(k, all[i]); }
    LinesOfUnlines(ls);
  }

  lemma {:induction false} ReadRest(k: Codec, all: seq<Entry>, i: nat, header: Entry, entries: seq<Entry>)
    requires Lawful(k) && 0 < i <= |all|
    ensures ReadFrom(k, EncodeAll(k, all), i, Some(header), entries) == Read(header, entries + all[i..])
    decreases |all| - i
  {
    hide Trim, Lawful;
    if i < |all| {
      EncodedLine(k, all[i]);
      ReadRest(k, all, i + 1, header, entries + [all[i]]);
      assert entries + [all[i]] + all[i + 1..] == entries + all[i..];
    } else {
      assert entries + all[i..] == entries;
    }
  }

  /** What was written is read back: the header and every entry, in order. */
  lemma ReadBack(k: Codec, header: Entry, es: seq<Entry>)
    requires Lawful(k) && GoodHeader(header)
    ensures ReadText(k, Written(k, header, es)) == Read(header, es)
  {
    hide Trim, Lawful, Written, Lines;
    var all := [header] + es;
    WrittenLines(k, header, es);
    EncodedLine(k, header);
    ReadRest(k, all, 1, header, []);
    assert [] + all[1..] == es;
  }

  // ---------- forking ----------

  function Min(a: nat, b: nat): nat { if a < b then a else b }

  /** The text offered for editing when forking at an entry. */
  function Prefill(es: seq<Entry>, index: nat): Option<string> {
    if index < |es| && es[index].Message? && es[index].role == "user" then Some(es[index].content) else None
  }

  /** What a fork takes from the outside: its fresh id, the time and the working directory. */
  datatype ForkInputs = ForkInputs(newId: string, timestamp: string, cwd: string)

  function ForkHeader(h: Entry, inp: ForkInputs): Entry
    requires h.Header?
  {
    Header(SESSION_VERSION, inp.newId, Some(h.id), inp.timestamp, inp.cwd, h.model, h.baseUrl, h.name)
  }

  /** The forked file's text and the prefill, or the error met when reading the source. */
  datatype ForkResult = Forked(text: string, prefill: Option<string>) | ForkFailed(why: ReadResult)

  method ForkSessionAt(k: Codec, source: string, target: nat, inp: ForkInputs) returns (r: ForkResult)
    ensures var read := ReadText(k, source);
            if read.Read? && read.header.Header? then
              r == Forked(Written(k, ForkHeader(read.header, inp), read.entries[..Min(target, |read.entries|)]),
                          Prefill(read.entries, target))
            else r == ForkFailed(read)
  {
    var read := ReadSession(k, source);
    if !read.Read? || !read.header.Header? { return ForkFailed(read); }
    var h, entries := ForkHeader(read.header, inp), read.entries;
    var copyUntil := Min(target, |entries|);
    var text := Appended(k, "", h);
    EmptyStart(k, h);
    for i := 0 to copyUntil
      invariant text == Written(k, h, entries[..i])
    {
      AppendGrows(k, h, entries[..i], entries[i]);
      assert entries[..i + 1] == entries[..i] + [entries[i]];
      text := Appended(k, text, entries[i]);
    }
    r := Forked(text, Prefill(entries, target));
  }

  lemma EmptyStart(k: Codec, h: Entry)
    ensures Appended(k, "", h) == Written(k, h, [])
  {
    UnlinesOne(k.encode(h));
    assert EncodeAll(k, [h] + []) == [k.encode(h)];
  }

  /** The file a fork of a written session consists of. */
  function ForkOf(k: Codec, h: Entry, es: seq<Entry>, target: nat, inp: ForkInputs): string
    requires h.Header?
  {
    Written(k, ForkHeader(h, inp), es[..Min(target, |es|)])
  }

  /** Reading a fork at `target` gives the first entries and names the source as parent. */
  lemma ForkReadsPrefix(k: Codec, h: Entry, es: seq<Entry>, target: nat, inp: ForkInputs)
    requires Lawful(k) && GoodHeader(h)
    ensures ReadText(k, ForkOf(k, h, es, target, inp)) == Read(ForkHeader(h, inp), es[..Min(target, |es|)])
    ensures ForkHeader(h, inp).parentId == Some(h.id)
  {
    hide ReadText, Written, Lawful;
    ReadBack(k, ForkHeader(h, inp), es[..Min(target, |es|)]);
  }

  /** A fork of a fork holds the entries of one fork at the smaller index. */
  lemma ForkOfFork(k: Codec, h: Entry, es: seq<Entry>, a: nat, b: nat, inp1: ForkInputs, inp2: ForkInputs)
    requires Lawful(k) && GoodHeader(h)
    ensures var first, once := ReadText(k, ForkOf(k, h, es, a, inp1)), ReadText(k, ForkOf(k, h, es, Min(a, b), inp2));
            && first.Read? && first.header.Header? && once.Read?
            && ReadText(k, ForkOf(k, first.header, first.entries, b, inp2)).Read?
            && ReadText(k, ForkOf(k, first.header, first.entries, b, inp2)).entries == once.entries
  {
    hide ReadText, Written, Lawful, ForkOf;
    ForkReadsPrefix(k, h, es, a, inp1);
    ForkReadsPrefix(k, h, es, Min(a, b), inp2);
    var es1 := es[..Min(a, |es|)];
    ForkReadsPrefix(k, ForkHeader(h, inp1), es1, b, inp2);
    assert es1[..Min(b, |es1|)] == es[..Min(Min(a, b), |es|)];
  }

  // ---------- the tree ----------

  datatype TreeRow = TreeRow(entryIndex: nat, role: string, preview: string, prefillText: Option<string>)

  function CollapseTruncate(s: string, maxChars: nat): string {
    var oneLine := Collapse(s);
    oneLine[..Min(maxChars, |oneLine|)]
  }

  /** The row shown for an entry, if any: bookkeeping entries and tool results have none. */
  function RowOf(i: nat, e: Entry): Option<TreeRow> {
    match e
    case Message(role, content) =>
      Some(TreeRow(i, role, CollapseTruncate(content, 60), if role == "user" then Some(content) else None))
    case ToolCall(toolName, command, arguments) =>
      var preview := if toolName == "bash" then (if command.Some? then CollapseTruncate(command.value, 60) else "")
                     else CollapseTruncate(arguments, 60);
      Some(TreeRow(i, "[" + toolName + "]", preview, None))
    case Compaction(summary, replacedCount) =>
      Some(TreeRow(i, "[compaction]", replacedCount + " msgs \U{2192} " + CollapseTruncate(summary, 50), None))
    case BranchSummary(summary) => Some(TreeRow(i, "[branch summary]", CollapseTruncate(summary, 60), None))
    case SkillInvocation(skill, userMessage) =>
      var preview := if userMessage.Some? then skill + " \U{B7} " + CollapseTruncate(userMessage.value, 40) else skill;
      Some(TreeRow(i, "[skill]", preview, None))
    case _ => None
  }

  function Rows(es: seq<Entry>): seq<TreeRow> {
    if es == [] then [] else
      var n := |es| - 1;
      var row := RowOf(n, es[n]);
      Rows(es[..n]) + if row.Some? then [row.value] else []
  }

  method TreeItems(es: seq<Entry>) returns (out: seq<TreeRow>)
    ensures out == Rows(es)
  {
    hide RowOf;
    out := [];
    for i := 0 to |es|
      invariant out == Rows(es[..i])
    {
      assert es[..i + 1][..i] == es[..i];
      var row := RowOf(i, es[i]);
      if row.Some? { out := out + [row.value]; }
    }
    assert es[..|es|] == es;
  }

  /** Rows come in strictly increasing entry order; each is its entry's row, and forking there returns its prefill. */
  lemma {:induction false} RowsAgreeWithForks(es: seq<Entry>)
    ensures forall i, j :: 0 <= i < j < |Rows(es)| ==> Rows(es)[i].entryIndex < Rows(es)[j].entryIndex
    ensures forall i :: 0 <= i < |Rows(es)| ==>
              && Rows(es)[i].entryIndex < |es|
              && Some(Rows(es)[i]) == RowOf(Rows(es)[i].entryIndex, es[Rows(es)[i].entryIndex])
              && Rows(es)[i].prefillText == Prefill(es, Rows(es)[i].entryIndex)
  {
    hide RowOf;
    if es != [] {
      var n := |es| - 1;
      RowsAgreeWithForks(es[..n]);
      RowPrefill(es, n);
    }
  }

  lemma RowPrefill(es: seq<Entry>, i: nat)
    requires i < |es|
    ensures RowOf(i, es[i]).Some? ==>
              RowOf(i, es[i]).value.entryIndex == i && RowOf(i, es[i]).value.prefillText == Prefill(es, i)
  {
    hide CollapseTruncate;
  }

  /** No entry that has a row is missing from the rows. */
  lemma {:induction false} EveryRowIsListed(es: seq<Entry>, i: nat)
    requires i < |es| && RowOf(i, es[i]).Some?
    ensures RowOf(i, es[i]).value in Rows(es)
  {
    hide RowOf;
    var n := |es| - 1;
    if i < n { EveryRowIsListed(es[..n], i); }
  }

  // ---------- renaming ----------

  /** `split('\n')`: the lines, and the text after the last newline. */
  function SplitNewlines(s: string): (r: seq<string>)
    ensures r != []
  {
    if s == "" then [""]
    else if s[0] == '\n' then [""] + SplitNewlines(s[1..])
    else var rest := SplitNewlines(s[1..]); [[s[0]] + rest[0]] + rest[1..]
  }

  function FirstNonBlank(ls: seq<string>): (i: nat)
    ensures i <= |ls|
  {
    if ls == [] || Trim(ls[0]) != "" then 0 else 1 + FirstNonBlank(ls[1..])
  }

  /** The file with the name in its header replaced; `None` when the first line cannot be parsed. */
  function Renamed(k: Codec, text: string, name: Option<string>): Option<string> {
    var ls := SplitNewlines(text);
    var i := FirstNonBlank(ls);
    if i == |ls| then Some(Join(ls, "\n")) else
      var e := k.decode(ls[i]);
      if e.None? then None
      else if e.value.Header? then Some(Join(ls[i := k.encode(e.value.(name := name))], "\n"))
      else Some(Join(ls, "\n"))
  }

  method SetSessionName(k: Codec, text: string, name: Option<string>) returns (r: Option<string>)
    ensures r == Renamed(k, text, name)
  {
    hide Trim, SplitNewlines, Join;
    var lines := SplitNewlines(text);
    var i := 0;
    while i < |lines|
      invariant 0 <= i <= |lines|
      invariant FirstNonBlank(lines) == i + FirstNonBlank(lines[i..])
    {
      if Trim(lines[i]) == "" {
        assert lines[i..][1..] == lines[i + 1..];
        i := i + 1;
        continue;
      }
      var entry := k.decode(lines[i]);
      if entry.None? { return None; }
      if entry.value.Header? {
        lines := lines[i := k.encode(entry.value.(name := name))];
      }
      return Some(Join(lines, "\n"));
    }
    r := Some(Join(lines, "\n"));
  }

  lemma {:induction false} SplitLine(l: string, rest: string)
    requires NewlineFree(l)
    ensures SplitNewlines(l + "\n" + rest) == [l] + SplitNewlines(rest)
  {
    var s := l + "\n" + rest;
    if l == "" {
      assert s[1..] == rest;
    } else {
      SplitLine(l[1..], rest);
      assert s[1..] == l[1..] + "\n" + rest;
      assert l == [l[0]] + l[1..];
    }
  }

  lemma {:induction false} SplitOfUnlines(ls: seq<string>)
    requires NewlineFreeLines(ls)
    ensures SplitNewlines(Unlines(ls)) == ls + [""]
  {
    hide NewlineFree, Unlines;
    if ls == [] {
      UnlinesEndsLine([]);
    } else {
      assert ls == [ls[0]] + ls[1..];
      UnlinesCons(ls[0], ls[1..]);
      SplitOfUnlines(ls[1..]);
      SplitLine(ls[0], Unlines(ls[1..]));
    }
  }

  lemma JoinTerminated(ls: seq<string>)
    ensures Join(ls + [""], "\n") == Unlines(ls)
  {
    if ls == [] {
      UnlinesEndsLine([]);
    } else {
      JoinInit(ls + [""]);
      assert (ls + [""])[..|ls|] == ls;
    }
  }

  /** Renaming changes the name in the header and keeps every entry. */
  lemma RenameKeepsEntries(k: Codec, h: Entry, es: seq<Entry>, name: Option<string>)
    requires Lawful(k) && GoodHeader(h)
    ensures Renamed(k, Written(k, h, es), name) == Some(Written(k, h.(name := name), es))
    ensures ReadText(k, Written(k, h.(name := name), es)) == Read(h.(name := name), es)
  {
    hide Trim, Lawful, Unlines, SplitNewlines, Join, ReadText;
    var ls := EncodeAll(k, [h] + es);
    var h' := h.(name := name);
    forall i | 0 <= i < |ls| ensures NewlineFree(ls[i]) { EncodedLine(k, ([h] + es)[i]); }
    SplitOfUnlines(ls);
    EncodedLine(k, h);
    var split := ls + [""];
    assert split[0] == k.encode(h) && FirstNonBlank(split) == 0;
    assert EncodeAll(k, [h'] + es) == ls[0 := k.encode(h')];
    assert split[0 := k.encode(h')] == ls[0 := k.encode(h')] + [""];
    JoinTerminated(ls[0 := k.encode(h')]);
    ReadBack(k, h', es);
  }
}
