/** The third writer of a brief: it reads, upserts the outcome of a worktree, and writes back (src/tool/agent.rs). */
module OutcomeWriters {
  import opened Text
  import opened Brief
  import opened BriefRoundTrip
  import opened AmendmentText
  import opened AmendmentFile
  import opened FrontMatter
  import opened FrontMatterLaws
  import opened BriefMetadata
  import opened BriefWriters

  const OUTCOME: string := "worktree_outcome"

  datatype Task = Locked(job: Job) | Outcome(value: string)

  /** What a writer puts in place of the copy it read; `None` when it writes nothing back. */
  function Update(task: Task, copy: Option<string>): Option<string> {
    if copy.None? then None else
      match task
      case Locked(SetState(v)) => SetField(copy.value, STATE, v)
      case Locked(Amend(_)) => None
      case Outcome(v) => UpsertField(copy.value, OUTCOME, v)
  }

  /** What one completed writer does to the file. */
  function ApplyTask(file: Option<string>, task: Task): Option<string> {
    match task
    case Locked(job) => ApplyJob(file, job)
    case Outcome(_) => if Update(task, file).Some? then Update(task, file) else file
  }

  function Serially(file: Option<string>, tasks: seq<Task>): Option<string> {
    if tasks == [] then file else ApplyTask(Serially(file, tasks[..|tasks| - 1]), tasks[|tasks| - 1])
  }

  function LockedJobs(tasks: seq<Task>): seq<Job> {
    if tasks == [] then []
    else LockedJobs(tasks[..|tasks| - 1]) + if tasks[|tasks| - 1].Locked? then [tasks[|tasks| - 1].job] else []
  }

  function LastOutcome(tasks: seq<Task>): Option<string> {
    if tasks == [] then None
    else if tasks[|tasks| - 1].Outcome? then Some(tasks[|tasks| - 1].value)
    else LastOutcome(tasks[..|tasks| - 1])
  }

  // ---------- the outcome in a brief with appended amendments ----------

  /** A head whose block the reader finds closed too, and whose outcome, if any, ends in a bare newline. */
  predicate OutcomeHead(h: seq<string>, f: nat) {
    && StateHead(h, f) && FENCE in h[1..]
    && var ps := Terminated(h);
       HasKey(ps, OUTCOME) ==> Ending(ps[FieldFrom(ps, 1, OUTCOME)]) == "\n"
  }

  /** The head after an outcome: its line replaced, or inserted before the closing fence. */
  function AfterOutcome(h: seq<string>, v: string): seq<string>
    requires h != []
  {
    var ps := Terminated(h);
    if HasKey(ps, OUTCOME) then h[FieldFrom(ps, 1, OUTCOME) := Written(OUTCOME, v)]
    else h[..FenceFrom(ps, 1)] + [Written(OUTCOME, v)] + h[FenceFrom(ps, 1)..]
  }

  lemma NoKeyInPrefix(ps: seq<string>, qs: seq<string>, key: string)
    requires Closed(ps) && !HasKey(ps, key)
    ensures Closed(ps + qs) && !HasKey(ps + qs, key) && FenceFrom(ps + qs, 1) == FenceFrom(ps, 1)
  {
    hide IsFence, HasField, FenceFrom, FieldFrom;
    FenceFromUnique(ps + qs, 1, FenceFrom(ps, 1));
    assert forall k :: 1 <= k < FenceFrom(ps, 1) ==> (ps + qs)[k] == ps[k];
  }

  lemma TerminatedSlices(h: seq<string>, c: nat, w: string)
    requires c <= |h|
    ensures Terminated(h[..c] + [w] + h[c..]) == Terminated(h)[..c] + [w + "\n"] + Terminated(h)[c..]
  {
    var r := h[..c] + [w] + h[c..];
    assert forall i :: 0 <= i < |r| ==> r[i] == if i < c then h[i] else if i == c then w else h[i - 1];
  }

  lemma OutcomeLine(v: string)
    ensures var w, l := Written(OUTCOME, v), FieldLine(OUTCOME, v, "\n");
            && l == w + "\n" && HasField(l, OUTCOME) && !HasField(l, STATE) && !IsFence(l) && Ending(l) == "\n"
            && NewlineFree(w) && !IsMarkerLine(w) && w != FENCE
  {
    hide FmValue, IsFence, HasField, IsMarkerLine, Ending, TrimEol;
    OutcomePlain();
    WrittenLine(OUTCOME, v, "\n");
    EndingOfWritten(OUTCOME, v, "\n");
    FieldNotMarker(FieldLine(OUTCOME, v, "\n"), OUTCOME);
    MarkerLineTerminated(Written(OUTCOME, v));
    FmValueOneLine(v);
    OneKey(FieldLine(OUTCOME, v, "\n"));
    WrittenKey(OUTCOME, v);
  }

  lemma OneKey(p: string)
    requires HasField(p, OUTCOME)
    ensures !HasField(p, STATE)
  {
    hide TrimEol;
    assert (OUTCOME + SEP)[0] == 'w' && (STATE + SEP)[0] == 's';
  }

  lemma OutcomePlain()
    ensures PlainKey(OUTCOME) && NewlineFree(OUTCOME) && OUTCOME != STATE
  {
    hide Find;
    var i := Find(OUTCOME, SEP);
    forall k | 0 <= k < |OUTCOME| ensures !(SEP <= OUTCOME[k..]) {
      assert OUTCOME[k..][0] == OUTCOME[k];
    }
  }

  /** Recording the outcome commutes with whatever was appended after the head. */
  lemma OutcomeOnFile(h: seq<string>, f: nat, b: string, v: string)
    requires OutcomeHead(h, f)
    ensures h != [] && UpsertField(Unlines(h) + b, OUTCOME, v) == Some(Unlines(AfterOutcome(h, v)) + b)
  {
    hide SplitInclusive, UpsertPieces, Unlines, IsHead, HasKey, FieldFrom, Ending, AfterOutcome;
    HeadLinesFree(h);
    SplitFile(h, b);
    OutcomePieces(h, f, SplitInclusive(b), v);
    ConcatAppend(Terminated(AfterOutcome(h, v)), SplitInclusive(b));
    UnlinesText(AfterOutcome(h, v));
  }

  lemma OutcomePieces(h: seq<string>, f: nat, qs: seq<string>, v: string)
    requires OutcomeHead(h, f)
    ensures h != []
    ensures UpsertPieces(Terminated(h) + qs, OUTCOME, v) == Some(Terminated(AfterOutcome(h, v)) + qs)
  {
    hide IsHead, FmValue, FieldFrom, FenceFrom, Ending, IsFence, HasField, FieldLine, Written;
    var ps := Terminated(h);
    OutcomeLine(v);
    var l := FieldLine(OUTCOME, v, "\n");
    if HasKey(ps, OUTCOME) {
      var g := FieldFrom(ps, 1, OUTCOME);
      PrefixSearch(ps, qs, OUTCOME);
      assert (ps + qs)[g := l] == ps[g := l] + qs;
      assert ps[g := l] == Terminated(AfterOutcome(h, v));
    } else {
      var c := FenceFrom(ps, 1);
      NoKeyInPrefix(ps, qs, OUTCOME);
      TerminatedSlices(h, c, Written(OUTCOME, v));
      assert (ps + qs)[..c] + [l] + (ps + qs)[c..] == (ps[..c] + [l] + ps[c..]) + qs;
    }
  }

  // ---------- the head stays such a head ----------

  lemma ReplacedPieces(ps: seq<string>, l: string)
    requires HasKey(ps, STATE) && HasKey(ps, OUTCOME) && HasField(l, OUTCOME) && !IsFence(l)
    ensures var g := FieldFrom(ps, 1, OUTCOME);
            && 1 <= g < |ps| - 1 && g != FieldFrom(ps, 1, STATE)
            && HasKey(ps[g := l], STATE) && FieldFrom(ps[g := l], 1, STATE) == FieldFrom(ps, 1, STATE)
            && FieldFrom(ps[g := l], 1, OUTCOME) == g && !IsFence(ps[g])
  {
    hide IsFence, HasField, FenceFrom, FieldFrom;
    var c, f, g := FenceFrom(ps, 1), FieldFrom(ps, 1, STATE), FieldFrom(ps, 1, OUTCOME);
    OneKey(l);
    OneKey(ps[g]);
    FenceFromUnique(ps[g := l], 1, c);
    FieldFromUnique(ps[g := l], 1, STATE, f);
    FieldFromUnique(ps[g := l], 1, OUTCOME, g);
  }

  lemma InsertedAt(ps: seq<string>, c: nat, l: string)
    requires c < |ps|
    ensures var r := ps[..c] + [l] + ps[c..];
            && |r| == |ps| + 1 && r[c] == l && r[c + 1] == ps[c] && forall k :: 0 <= k < c ==> r[k] == ps[k]
  {
  }

  lemma InsertedPieces(ps: seq<string>, l: string)
    requires HasKey(ps, STATE) && !HasKey(ps, OUTCOME) && HasField(l, OUTCOME) && !IsFence(l)
    ensures var c := FenceFrom(ps, 1);
            && 1 <= FieldFrom(ps, 1, STATE) < c < |ps|
            && var r := ps[..c] + [l] + ps[c..];
               HasKey(r, STATE) && FieldFrom(r, 1, STATE) == FieldFrom(ps, 1, STATE) && FieldFrom(r, 1, OUTCOME) == c
  {
    hide IsFence, HasField, FenceFrom, FieldFrom;
    var c := FenceFrom(ps, 1);
    InsertedAt(ps, c, l);
    SearchInserted(ps, c, l, ps[..c] + [l] + ps[c..]);
  }

  lemma SearchInserted(ps: seq<string>, c: nat, l: string, r: seq<string>)
    requires HasKey(ps, STATE) && !HasKey(ps, OUTCOME) && HasField(l, OUTCOME) && !IsFence(l)
    requires c == FenceFrom(ps, 1) && |r| == |ps| + 1 && r[c] == l && r[c + 1] == ps[c]
    requires forall k :: 0 <= k < c ==> r[k] == ps[k]
    ensures HasKey(r, STATE) && FieldFrom(r, 1, STATE) == FieldFrom(ps, 1, STATE) && FieldFrom(r, 1, OUTCOME) == c
  {
    hide IsFence, HasField, FenceFrom, FieldFrom;
    var f := FieldFrom(ps, 1, STATE);
    FenceFromUnique(r, 1, c + 1);
    FieldFromUnique(r, 1, STATE, f);
    FieldFromUnique(r, 1, OUTCOME, c);
  }

  lemma HeadWithInserted(h: seq<string>, c: nat, w: string)
    requires IsHead(h) && 1 <= c < |h| && NewlineFree(w) && !IsMarkerLine(w)
    ensures IsHead(h[..c] + [w] + h[c..])
  {
    hide IsMarkerLine, NewlineFree;
    var r := h[..c] + [w] + h[c..];
    assert forall i :: 0 <= i < |r| ==> r[i] == if i < c then h[i] else if i == c then w else h[i - 1];
  }

  lemma NoFenceLine(l: string)
    requires !IsFence(l + "\n")
    ensures l != FENCE
  {
    FenceLine();
  }

  lemma FenceKept(h: seq<string>, g: nat, w: string)
    requires 1 <= g < |h| && FENCE in h[1..] && h[g] != FENCE
    ensures FENCE in h[g := w][1..]
  {
    var i :| 0 <= i < |h| - 1 && h[1..][i] == FENCE;
    assert h[g := w][1..][i] == FENCE;
  }

  /** After an outcome is recorded the head is again such a head, with the state where it was. */
  lemma OutcomeKeepsHead(h: seq<string>, f: nat, v: string)
    requires OutcomeHead(h, f)
    ensures h != [] && OutcomeHead(AfterOutcome(h, v), f)
  {
    hide IsFence, HasField, FenceFrom, FieldFrom, IsMarkerLine, Ending, NewlineFree, IsHead, HasKey, Written, FieldLine;
    OutcomeLine(v);
    if HasKey(Terminated(h), OUTCOME) {
      ReplacedKeepsHead(h, f, v);
    } else {
      InsertedKeepsHead(h, f, v);
    }
  }

  lemma ReplacedKeepsHead(h: seq<string>, f: nat, v: string)
    requires OutcomeHead(h, f) && HasKey(Terminated(h), OUTCOME)
    ensures OutcomeHead(AfterOutcome(h, v), f)
  {
    hide IsFence, HasField, FenceFrom, FieldFrom, IsMarkerLine, Ending, NewlineFree, IsHead, HasKey, Written, FieldLine;
    OutcomeLine(v);
    var ps, w, l := Terminated(h), Written(OUTCOME, v), FieldLine(OUTCOME, v, "\n");
    ReplacedPieces(ps, l);
    var g := FieldFrom(ps, 1, OUTCOME);
    HeadWithLine(h, g, w);
    NoFenceLine(h[g]);
    FenceKept(h, g, w);
    KeyInRange(ps, STATE);
    var r := h[g := w];
    assert AfterOutcome(h, v) == r && r[0] == h[0];
    assert Terminated(r) == ps[g := l] && Terminated(r)[f] == ps[f] && Terminated(r)[g] == l;
  }

  lemma InsertedKeepsHead(h: seq<string>, f: nat, v: string)
    requires OutcomeHead(h, f) && !HasKey(Terminated(h), OUTCOME)
    ensures OutcomeHead(AfterOutcome(h, v), f)
  {
    hide IsFence, HasField, FenceFrom, FieldFrom, IsMarkerLine, Ending, NewlineFree, IsHead, HasKey, Written, FieldLine;
    OutcomeLine(v);
    var ps, w, l := Terminated(h), Written(OUTCOME, v), FieldLine(OUTCOME, v, "\n");
    InsertedPieces(ps, l);
    var c := FenceFrom(ps, 1);
    TerminatedSlices(h, c, w);
    HeadWithInserted(h, c, w);
    var r := h[..c] + [w] + h[c..];
    assert FENCE in r[1..] by {
      var i :| 0 <= i < |h| - 1 && h[1..][i] == FENCE;
      assert r[1..][if i < c - 1 then i else i + 1] == FENCE;
    }
    assert r[0] == h[0];
    assert Terminated(r)[f] == ps[f] && Terminated(r)[c] == l;
  }

  /** Setting the state keeps it, too. */
  lemma SetKeepsOutcomeHead(h: seq<string>, f: nat, v: string)
    requires OutcomeHead(h, f)
    ensures f < |h| && OutcomeHead(h[f := Written(STATE, v)], f)
  {
    hide IsFence, HasField, FenceFrom, FieldFrom, IsMarkerLine, Ending, NewlineFree, IsHead, Written, FieldLine;
    var ps, w, l := Terminated(h), Written(STATE, v), FieldLine(STATE, v, "\n");
    WrittenStateLine(v);
    KeyInRange(ps, STATE);
    SetKeepsHead(h, f, v);
    assert Terminated(h[f := w]) == ps[f := l];
    NoFenceLine(h[f]);
    FenceKept(h, f, w);
    SetKeepsOutcomeLine(ps, l);
  }

  lemma SetKeepsOutcomeLine(ps: seq<string>, l: string)
    requires HasKey(ps, STATE) && HasField(l, STATE) && !IsFence(l)
    ensures var r := ps[FieldFrom(ps, 1, STATE) := l];
            && (HasKey(r, OUTCOME) <==> HasKey(ps, OUTCOME))
            && (HasKey(r, OUTCOME) ==> r[FieldFrom(r, 1, OUTCOME)] == ps[FieldFrom(ps, 1, OUTCOME)])
  {
    hide IsFence, HasField, FenceFrom, FieldFrom;
    var c, f := FenceFrom(ps, 1), FieldFrom(ps, 1, STATE);
    var r := ps[f := l];
    FenceFromUnique(r, 1, c);
    assert !HasField(l, OUTCOME) by { StateAlone(l); }
    assert !HasField(ps[f], OUTCOME) by { StateAlone(ps[f]); }
    FieldFromUnique(r, 1, OUTCOME, FieldFrom(ps, 1, OUTCOME));
  }

  lemma StateAlone(p: string)
    requires HasField(p, STATE)
    ensures !HasField(p, OUTCOME)
  {
    hide HasField;
    if HasField(p, OUTCOME) { OneKey(p); }
  }

  // ---------- what is read ----------

  lemma {:induction false} LookupStops(a: seq<string>, b: seq<string>, key: string)
    requires FENCE in a
    ensures LookupLines(a + b, key) == LookupLines(a, key)
  {
    hide SplitOnce;
    if a[0] != FENCE {
      assert (a + b)[1..] == a[1..] + b;
      LookupStops(a[1..], b, key);
    }
  }

  lemma LinesOfFile(h: seq<string>, b: string)
    requires NewlineFreeLines(h)
    ensures Lines(Unlines(h) + b) == StripCrs(h) + Lines(b)
  {
    hide Unlines, SplitInclusive, StripEol, StripCr, NewlineFreeLines;
    SplitFile(h, b);
    forall i | 0 <= i < |h| ensures StripEol(Terminated(h)[i]) == StripCr(h[i]) {
      StripEolOfLine(h[i]);
    }
  }

  /** What is appended behind a closed block changes no field. */
  lemma GetIgnoresTail(h: seq<string>, b: string, key: string)
    requires IsHead(h) && h[0] == FENCE && FENCE in h[1..]
    ensures Get(Unlines(h) + b, key) == LookupLines(StripCrs(h)[1..], key)
  {
    hide IsHead, StripCrs, Unlines, Lines, LookupLines, Get;
    HeadLinesFree(h);
    LinesOfFile(h, b);
    GetLines(Unlines(h) + b, key);
    FencesStay(h);
    BlockEnds(StripCrs(h), Lines(b), key);
  }

  lemma BlockEnds(ls: seq<string>, more: seq<string>, key: string)
    requires ls != [] && FENCE in ls[1..]
    ensures (ls + more)[0] == ls[0] && LookupLines((ls + more)[1..], key) == LookupLines(ls[1..], key)
  {
    hide LookupLines;
    assert (ls + more)[1..] == ls[1..] + more;
    LookupStops(ls[1..], more, key);
  }

  lemma FencesStay(h: seq<string>)
    requires h != [] && h[0] == FENCE && FENCE in h[1..]
    ensures StripCrs(h)[0] == FENCE && FENCE in StripCrs(h)[1..]
  {
    var i :| 0 <= i < |h| - 1 && h[1..][i] == FENCE;
    assert StripCrs(h)[1..][i] == FENCE;
  }

  /** The fields of a brief after these writers, and its head. */
  predicate After(content: string, h: seq<string>, meta: BriefMeta, tasks: seq<Task>) {
    && OutcomeHead(h, 5) && content == File(h, Entries(LockedJobs(tasks)))
    && Get(content, STATE) == Some(FmValue(FinalState(meta, tasks)))
    && Get(content, OUTCOME) == FinalOutcome(tasks)
  }

  function FinalState(meta: BriefMeta, tasks: seq<Task>): string {
    if LastState(LockedJobs(tasks)).Some? then LastState(LockedJobs(tasks)).value else meta.state
  }

  function FinalOutcome(tasks: seq<Task>): Option<string> {
    if LastOutcome(tasks).Some? then Some(FmValue(LastOutcome(tasks).value)) else None
  }

  lemma FileVisible(h: seq<string>, b: string)
    requires OutcomeHead(h, 5)
    ensures Visible(Lines(Unlines(h) + b)) && Closed(SplitInclusive(Unlines(h) + b))
  {
    hide Unlines, SplitInclusive, HasKey, IsHead, FieldFrom, IsFence, Ending, FenceFrom;
    VisibleFile(h, 5, b);
    HeadLinesFree(h);
    SplitFile(h, b);
    ClosedKept(Terminated(h), SplitInclusive(b));
  }

  lemma ClosedKept(ps: seq<string>, qs: seq<string>)
    requires HasKey(ps, STATE)
    ensures Closed(ps + qs)
  {
    hide IsFence, HasField, FenceFrom, FieldFrom;
    PrefixSearch(ps, qs, STATE);
  }

  lemma AfterState(content: string, h: seq<string>, meta: BriefMeta, tasks: seq<Task>, v: string)
    requires After(content, h, meta, tasks)
    ensures 5 < |h| && SetField(content, STATE, v).Some?
    ensures After(SetField(content, STATE, v).value, h[5 := Written(STATE, v)], meta, tasks + [Locked(SetState(v))])
  {
    hide OutcomeHead, Get, FmValue, Written, SetField, Chunks, PlainKey, Lines, LastOutcome, Unlines, Closed;
    hide LockedJobs, LastState, Entries, SplitInclusive, StateHead, Visible;
    var es := Entries(LockedJobs(tasks));
    OutcomeIsState(h);
    SetOnFile(h, 5, Chunks(es), v);
    SetKeepsOutcomeHead(h, 5, v);
    FileVisible(h, Chunks(es));
    StatePlain();
    OutcomePlain();
    SetThenGet(content, STATE, v);
    SetKeepsOtherKeys(content, STATE, v, OUTCOME);
    LockedSnoc(tasks, SetState(v));
    assert es + [] == es;
  }

  lemma OutcomeIsState(h: seq<string>)
    requires OutcomeHead(h, 5)
    ensures StateHead(h, 5)
  {
  }

  lemma LockedSnoc(tasks: seq<Task>, job: Job)
    ensures var ts := tasks + [Locked(job)];
            && LockedJobs(ts) == LockedJobs(tasks) + [job] && LastOutcome(ts) == LastOutcome(tasks)
            && Entries(LockedJobs(ts)) == Entries(LockedJobs(tasks)) + (if job.Amend? then [job.entry] else [])
            && LastState(LockedJobs(ts)) == if job.SetState? then Some(job.state) else LastState(LockedJobs(tasks))
  {
    var js := LockedJobs(tasks);
    assert (tasks + [Locked(job)])[..|tasks|] == tasks;
    assert (js + [job])[..|js|] == js;
  }

  lemma OutcomeSnoc(tasks: seq<Task>, v: string)
    ensures var ts := tasks + [Outcome(v)];
            LockedJobs(ts) == LockedJobs(tasks) && LastOutcome(ts) == Some(v)
  {
    assert (tasks + [Outcome(v)])[..|tasks|] == tasks;
    assert LockedJobs(tasks) + [] == LockedJobs(tasks);
  }

  lemma AfterAmend(content: string, h: seq<string>, meta: BriefMeta, tasks: seq<Task>, e: Entry)
    requires After(content, h, meta, tasks)
    ensures After(content + Chunk(e), h, meta, tasks + [Locked(Amend(e))])
  {
    hide Get, FmValue, Chunk, LastOutcome, StateHead, Unlines, HasKey, FieldFrom, Ending;
    hide LockedJobs, LastState, Entries, StripCrs, LookupLines, IsHead;
    var es := Entries(LockedJobs(tasks));
    LockedSnoc(tasks, Amend(e));
    HeadOfState(h, 5);
    StateFence(h);
    assert (es + [e])[..|es|] == es;
    assert Unlines(h) + Chunks(es) + Chunk(e) == Unlines(h) + (Chunks(es) + Chunk(e));
    GetIgnoresTail(h, Chunks(es), STATE);
    GetIgnoresTail(h, Chunks(es), OUTCOME);
    GetIgnoresTail(h, Chunks(es + [e]), STATE);
    GetIgnoresTail(h, Chunks(es + [e]), OUTCOME);
  }

  lemma StateFence(h: seq<string>)
    requires StateHead(h, 5)
    ensures h[0] == FENCE
  {
  }

  lemma AfterRecord(content: string, h: seq<string>, meta: BriefMeta, tasks: seq<Task>, v: string)
    requires After(content, h, meta, tasks)
    ensures h != [] && UpsertField(content, OUTCOME, v).Some?
    ensures After(UpsertField(content, OUTCOME, v).value, AfterOutcome(h, v), meta, tasks + [Outcome(v)])
  {
    hide OutcomeHead, Get, FmValue, UpsertField, Chunks, PlainKey, Lines, Closed, SplitInclusive, AfterOutcome;
    hide LockedJobs, LastState, Entries, LastOutcome, Unlines, Visible;
    var es := Entries(LockedJobs(tasks));
    OutcomeOnFile(h, 5, Chunks(es), v);
    OutcomeKeepsHead(h, 5, v);
    FileVisible(h, Chunks(es));
    OutcomePlain();
    UpsertThenGet(content, OUTCOME, v);
    UpsertKeepsOtherKeys(content, OUTCOME, v, STATE);
    OutcomeSnoc(tasks, v);
  }

  // ---------- one writer after another ----------

  /** The text of a rendered brief. */
  function Rendered(spec: BriefSpec, meta: BriefMeta): string { Unlines(MetaLines(spec, meta)) }

  lemma NoOutcomeField(spec: BriefSpec, meta: BriefMeta)
    ensures forall i :: 0 <= i < |Fields(spec, meta)| ==> Fields(spec, meta)[i].key != OUTCOME
  {
    hide FmValue, ToolsField, Trim;
  }

  lemma RenderedAfter(spec: BriefSpec, meta: BriefMeta)
    ensures After(Rendered(spec, meta), MetaLines(spec, meta), meta, [])
  {
    hide Fields, BriefLines, Get, Unlines, FmValue, StateHead, HasKey, FieldFrom, Ending;
    var fs, h := Fields(spec, meta), MetaLines(spec, meta);
    MetaStateHead(spec, meta);
    NoOutcomeField(spec, meta);
    RenderedGet(spec, meta, STATE);
    RenderedGet(spec, meta, OUTCOME);
    StateField(spec, meta);
    assert h[1..][|fs|] == FENCE;
    NoOutcomeLine(spec, meta);
    assert Unlines(h) + "" == Unlines(h);
  }

  lemma StateField(spec: BriefSpec, meta: BriefMeta)
    ensures |Fields(spec, meta)| > 4 && Fields(spec, meta)[4] == Field(STATE, FmValue(meta.state))
  {
    hide FmValue, ToolsField, Trim;
  }

  lemma NoOutcomeLine(spec: BriefSpec, meta: BriefMeta)
    ensures !HasKey(Terminated(MetaLines(spec, meta)), OUTCOME)
  {
    hide Fields, MetaLines, PlainField, IsFence, HasField, FieldFrom, FenceFrom, FieldText;
    var fs, h := Fields(spec, meta), MetaLines(spec, meta);
    var ps := Terminated(h);
    FieldsPlain(spec, meta);
    NoOutcomeField(spec, meta);
    FieldLines(spec, meta);
    forall k | 1 <= k < |fs| + 1 ensures !HasField(ps[k], OUTCOME) {
      OtherField(fs[k - 1]);
    }
    FenceLine();
    assert ps[|fs| + 1] == FENCE + "\n";
    FieldBeyond(ps, OUTCOME, |fs| + 1);
  }

  lemma FieldLines(spec: BriefSpec, meta: BriefMeta)
    ensures var fs, h := Fields(spec, meta), MetaLines(spec, meta);
            && |h| > |fs| + 1 && h[|fs| + 1] == FENCE
            && forall k :: 1 <= k < |fs| + 1 ==> h[k] == FieldText(fs[k - 1])
  {
    hide Fields, BriefLines, FieldText;
  }

  lemma OtherField(f: Field)
    requires PlainField(f) && f.key != OUTCOME
    ensures !HasField(FieldText(f) + "\n", OUTCOME)
  {
    hide PlainKey, Inert, SplitOnce, TrimEol, StripEol, HasField;
    var p := FieldText(f) + "\n";
    OutcomePlain();
    assert p[..|p| - 1] == FieldText(f);
    StripEolOfLine(FieldText(f));
    FieldIsKey(p, OUTCOME);
    KeyedField(f);
  }

  /** Any sequence of the three writers: the head, the appended entries, and the fields as last written. */
  lemma {:induction false} SeriallyAfter(spec: BriefSpec, meta: BriefMeta, tasks: seq<Task>) returns (h: seq<string>)
    ensures Serially(Some(Rendered(spec, meta)), tasks).Some?
    ensures After(Serially(Some(Rendered(spec, meta)), tasks).value, h, meta, tasks)
  {
    hide After, SetField, UpsertField, Chunk, Rendered, AfterOutcome;
    if tasks == [] {
      h := MetaLines(spec, meta);
      RenderedAfter(spec, meta);
    } else {
      var init, task := tasks[..|tasks| - 1], tasks[|tasks| - 1];
      h := SeriallyAfter(spec, meta, init);
      var content := Serially(Some(Rendered(spec, meta)), init).value;
      assert tasks == init + [task];
      match task
      case Locked(SetState(v)) =>
        AfterState(content, h, meta, init, v);
        h := h[5 := Written(STATE, v)];
      case Locked(Amend(e)) =>
        AfterAmend(content, h, meta, init, e);
      case Outcome(v) =>
        AfterRecord(content, h, meta, init, v);
        h := AfterOutcome(h, v);
    }
  }

  /** Reading a brief after any sequence of the three writers. */
  lemma SeriallyReads(spec: BriefSpec, meta: BriefMeta, tasks: seq<Task>)
    requires TimedJobs(LockedJobs(tasks))
    ensures var r := Serially(Some(Rendered(spec, meta)), tasks);
            && r.Some?
            && Amendments(r.value, true) == Readings(Entries(LockedJobs(tasks)))
            && Get(r.value, STATE) == Some(FmValue(FinalState(meta, tasks)))
            && Get(r.value, OUTCOME) == FinalOutcome(tasks)
  {
    hide Amendments, Readings, Get, FmValue, Rendered, StateHead, HasKey, FieldFrom, Ending, Serially, File, FinalState;
    var h := SeriallyAfter(spec, meta, tasks);
    HeadOfState(h, 5);
    EntriesTimed(LockedJobs(tasks));
    AmendmentRoundTrip(h, Entries(LockedJobs(tasks)), true);
  }

  /** All other fields of the brief stay as they were rendered. */
  lemma {:induction false} OtherFieldsStay(spec: BriefSpec, meta: BriefMeta, tasks: seq<Task>, key: string)
    requires key != STATE && key != OUTCOME
    ensures var r := Serially(Some(Rendered(spec, meta)), tasks);
            r.Some? && Get(r.value, key) == Get(Rendered(spec, meta), key)
  {
    hide After, SetField, UpsertField, Chunk, Rendered, Get, PlainKey, NewlineFree;
    if tasks != [] {
      var init, task := tasks[..|tasks| - 1], tasks[|tasks| - 1];
      OtherFieldsStay(spec, meta, init, key);
      var h := SeriallyAfter(spec, meta, init);
      var content := Serially(Some(Rendered(spec, meta)), init).value;
      match task
      case Locked(SetState(v)) =>
        AfterState(content, h, meta, init, v);
        StatePlain();
        SetKeepsOtherKeys(content, STATE, v, key);
      case Locked(Amend(e)) =>
        AmendKeepsFields(content, h, meta, init, e, key);
      case Outcome(v) =>
        AfterRecord(content, h, meta, init, v);
        OutcomePlain();
        UpsertKeepsOtherKeys(content, OUTCOME, v, key);
    }
  }

  lemma AmendKeepsFields(content: string, h: seq<string>, meta: BriefMeta, tasks: seq<Task>, e: Entry, key: string)
    requires After(content, h, meta, tasks)
    ensures Get(content + Chunk(e), key) == Get(content, key)
  {
    hide Get, FmValue, Chunk, LastOutcome, StateHead, Unlines, HasKey, FieldFrom, Ending;
    hide LockedJobs, LastState, Entries, StripCrs, LookupLines, IsHead;
    var es := Entries(LockedJobs(tasks));
    HeadOfState(h, 5);
    StateFence(h);
    assert Unlines(h) + Chunks(es) + Chunk(e) == Unlines(h) + (Chunks(es) + Chunk(e));
    GetIgnoresTail(h, Chunks(es), key);
    GetIgnoresTail(h, Chunks(es) + Chunk(e), key);
  }

  /** Each of these writers writes something back, whatever came before. */
  lemma AlwaysUpdates(spec: BriefSpec, meta: BriefMeta, tasks: seq<Task>, task: Task)
    requires !(task.Locked? && task.job.Amend?)
    ensures Update(task, Serially(Some(Rendered(spec, meta)), tasks)).Some?
  {
    hide After, SetField, UpsertField, Rendered, Serially;
    var h := SeriallyAfter(spec, meta, tasks);
    var content := Serially(Some(Rendered(spec, meta)), tasks).value;
    match task
    case Locked(SetState(v)) => AfterState(content, h, meta, tasks, v);
    case Locked(Amend(e)) =>
    case Outcome(v) => AfterRecord(content, h, meta, tasks, v);
  }
}
