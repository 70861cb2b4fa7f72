/** What a fork, a tree row and a failed read tell about a session (src/session.rs). */
module SessionViews {
  import opened Text
  import opened Session
  import opened SessionFiles

  // ---------- forks ----------

  /** A fork's header has the new id, time and directory, names the source, and keeps model, address and name. */
  lemma ForkKeeps(k: Codec, h: Entry, es: seq<Entry>, target: nat, inp: ForkInputs)
    requires Lawful(k) && GoodHeader(h)
    ensures ReadText(k, ForkOf(k, h, es, target, inp)) ==
            Read(Header(2, inp.newId, Some(h.id), inp.timestamp, inp.cwd, h.model, h.baseUrl, h.name),
                 if target <= |es| then es[..target] else es)
  {
    hide ReadText, ForkOf, Lawful;
    ForkReadsPrefix(k, h, es, target, inp);
    assert es[..|es|] == es;
  }

  /** Only a user's message is offered for editing, as it was written. */
  lemma PrefillExactly(es: seq<Entry>, index: nat, text: string)
    ensures Prefill(es, index) == Some(text) <==> index < |es| && es[index] == Message("user", text)
  {
  }

  // ---------- rows ----------

  /** The text on one line with single spaces, at most so many characters of it. */
  predicate Excerpt(preview: string, text: string, most: nat) {
    var line := Join(Words(text), " ");
    preview <= line && |preview| == if |line| <= most then |line| else most
  }

  lemma ExcerptIs(text: string, most: nat)
    ensures Excerpt(CollapseTruncate(text, most), text, most)
  {
  }

  /** Turns have rows, bookkeeping and tool results have none. */
  lemma RowExactly(i: nat, e: Entry)
    ensures RowOf(i, e).Some? <==>
            e.Message? || e.ToolCall? || e.Compaction? || e.BranchSummary? || e.SkillInvocation?
    ensures RowOf(i, e).Some? ==> RowOf(i, e).value.entryIndex == i
    ensures RowOf(i, e).Some? ==>
              RowOf(i, e).value.prefillText == if e.Message? && e.role == "user" then Some(e.content) else None
  {
    hide CollapseTruncate;
  }

  /** What each row shows: the role or the kind of entry, and an excerpt. */
  lemma RowShows(i: nat, e: Entry)
    requires RowOf(i, e).Some?
    ensures var row := RowOf(i, e).value;
            match e
            case Message(role, content) => row.role == role && Excerpt(row.preview, content, 60)
            case ToolCall(toolName, command, arguments) =>
              && row.role == "[" + toolName + "]"
              && (toolName == "bash" && command.Some? ==> Excerpt(row.preview, command.value, 60))
              && (toolName == "bash" && command.None? ==> row.preview == "")
              && (toolName != "bash" ==> Excerpt(row.preview, arguments, 60))
            case Compaction(summary, replacedCount) =>
              && row.role == "[compaction]"
              && exists x :: IsNoteOf(row.preview, replacedCount + " msgs \U{2192} ", x, summary, 50)
            case BranchSummary(summary) => row.role == "[branch summary]" && Excerpt(row.preview, summary, 60)
            case SkillInvocation(skill, userMessage) =>
              && row.role == "[skill]"
              && (userMessage.None? ==> row.preview == skill)
              && (userMessage.Some? ==> exists x :: IsNoteOf(row.preview, skill + " \U{B7} ", x, userMessage.value, 40))
            case _ => false
  {
    hide CollapseTruncate, Excerpt;
    match e
    case Message(role, content) => ExcerptIs(content, 60);
    case ToolCall(toolName, command, arguments) =>
      ExcerptIs(arguments, 60);
      if command.Some? { ExcerptIs(command.value, 60); }
    case Compaction(summary, replacedCount) =>
      ExcerptIs(summary, 50);
      assert IsNoteOf(RowOf(i, e).value.preview, replacedCount + " msgs \U{2192} ", CollapseTruncate(summary, 50),
                      summary, 50);
    case BranchSummary(summary) => ExcerptIs(summary, 60);
    case SkillInvocation(skill, userMessage) =>
      if userMessage.Some? {
        ExcerptIs(userMessage.value, 40);
        assert IsNoteOf(RowOf(i, e).value.preview, skill + " \U{B7} ", CollapseTruncate(userMessage.value, 40),
                        userMessage.value, 40);
      }
  }

  predicate IsNoteOf(preview: string, front: string, x: string, text: string, most: nat) {
    preview == front + x && Excerpt(x, text, most)
  }

  // ---------- failed reads ----------

  /** Line `j` is not blank and no entry. */
  predicate BadLine(k: Codec, lines: seq<string>, j: nat) {
    j < |lines| && Trim(lines[j]) != "" && k.decode(lines[j]).None?
  }

  predicate FirstBad(k: Codec, lines: seq<string>, from: nat, j: nat) {
    from <= j && BadLine(k, lines, j) && forall l :: from <= l < j ==> !BadLine(k, lines, l)
  }

  lemma {:induction false} ReadOnFails(
      k: Codec, lines: seq<string>, i: nat, header: Option<Entry>, entries: seq<Entry>, n: nat)
    requires 1 <= i <= |lines|
    ensures ReadFrom(k, lines, i, header, entries) == ParseError(n) <==> n >= 1 && FirstBad(k, lines, i, n - 1)
    ensures var r := ReadFrom(k, lines, i, header, entries); !r.NotASession? && !r.UnsupportedVersion?
    decreases |lines| - i
  {
    hide Trim;
    if i < |lines| {
      var e := k.decode(lines[i]);
      var more := if Trim(lines[i]) != "" && e.Some? then [e.value] else [];
      assert entries + [] == entries;
      ReadOnFails(k, lines, i + 1, header, entries + more, n);
      assert BadLine(k, lines, i) <==> Trim(lines[i]) != "" && e.None?;
      assert n >= 1 && !BadLine(k, lines, i) ==>
        (FirstBad(k, lines, i, n - 1) <==> FirstBad(k, lines, i + 1, n - 1));
    }
  }

  /**
   * Why a file cannot be read: the first line that is no entry, by its number from 1; or a first line that is an entry
   * but no header, or a header of another version; or else a blank first line.
   */
  lemma FailsExactly(k: Codec, text: string, n: nat)
    ensures var ls, r := Lines(text), ReadText(k, text);
            var first := if ls != [] && Trim(ls[0]) != "" then k.decode(ls[0]) else None;
            && (r == NotASession <==> first.Some? && !first.value.Header?)
            && (r == UnsupportedVersion(n) <==> first.Some? && first.value.Header? && first.value.version == n != 2)
            && (r == ParseError(n) <==>
                  && n >= 1 && FirstBad(k, ls, 0, n - 1)
                  && (first.Some? ==> first.value.Header? && first.value.version == 2))
  {
    hide Trim, Lines;
    var ls := Lines(text);
    if ls != [] {
      var e := k.decode(ls[0]);
      ReadOnFails(k, ls, 1, None, [], n);
      ReadOnFails(k, ls, 1, e, [], n);
      assert BadLine(k, ls, 0) <==> Trim(ls[0]) != "" && e.None?;
      assert n >= 1 && !BadLine(k, ls, 0) ==> (FirstBad(k, ls, 0, n - 1) <==> FirstBad(k, ls, 1, n - 1));
    }
  }
}
