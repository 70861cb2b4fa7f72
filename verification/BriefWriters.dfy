/** State changes and amendment appends on one brief, one after another. */
module BriefWriters {
  import opened Text
  import opened Brief
  import opened BriefRoundTrip
  import opened AmendmentText
  import opened AmendmentFile
  import opened FrontMatter
  import opened FrontMatterLaws
  import opened BriefMetadata

  // ---------- setting the state of a brief with appended amendments ----------

  /** A head with a visible closed block whose line `f` holds the state. */
  predicate StateHead(h: seq<string>, f: nat) {
    && IsHead(h) && h[0] == FENCE
    && var ps := Terminated(h);
       HasKey(ps, STATE) && f == FieldFrom(ps, 1, STATE) && Ending(ps[f]) == "\n"
  }

  lemma PrefixSearch(ps: seq<string>, qs: seq<string>, key: string)
    requires HasKey(ps, key)
    ensures HasKey(ps + qs, key)
    ensures FenceFrom(ps + qs, 1) == FenceFrom(ps, 1) && FieldFrom(ps + qs, 1, key) == FieldFrom(ps, 1, key)
  {
    hide IsFence, HasField, FenceFrom, FieldFrom;
    FenceFromUnique(ps + qs, 1, FenceFrom(ps, 1));
    FieldFromUnique(ps + qs, 1, key, FieldFrom(ps, 1, key));
  }

  lemma SplitFile(h: seq<string>, b: string)
    requires NewlineFreeLines(h)
    ensures SplitInclusive(Unlines(h) + b) == Terminated(h) + SplitInclusive(b)
  {
    hide Unlines, SplitInclusive;
    UnlinesEndsLine(h);
    SplitUnlines(h);
    SplitAppend(Unlines(h), b);
  }

  /** Setting the state commutes with whatever was appended after the head. */
  lemma SetOnFile(h: seq<string>, f: nat, b: string, v: string)
    requires StateHead(h, f)
    ensures f < |h| && SetField(Unlines(h) + b, STATE, v) == Some(Unlines(h[f := Written(STATE, v)]) + b)
  {
    hide IsHead, SplitInclusive, FmValue, HasKey, FieldFrom, Ending;
    var ps, qs := Terminated(h), SplitInclusive(b);
    HeadLinesFree(h);
    SplitFile(h, b);
    PrefixSearch(ps, qs, STATE);
    KeyInRange(ps, STATE);
    var l := FieldLine(STATE, v, "\n");
    assert (ps + qs)[f] == ps[f];
    assert (ps + qs)[f := l] == ps[f := l] + qs;
    assert ps[f := l] == Terminated(h[f := Written(STATE, v)]);
    ConcatAppend(ps[f := l], qs);
  }

  lemma KeyInRange(ps: seq<string>, key: string)
    requires HasKey(ps, key)
    ensures 1 <= FieldFrom(ps, 1, key) < |ps| - 1
    ensures HasField(ps[FieldFrom(ps, 1, key)], key)
  {
  }

  lemma SetPiecesKeepKey(ps: seq<string>, l: string)
    requires HasKey(ps, STATE) && HasField(l, STATE) && !IsFence(l)
    ensures FieldFrom(ps, 1, STATE) < |ps|
    ensures var r := ps[FieldFrom(ps, 1, STATE) := l];
            HasKey(r, STATE) && FieldFrom(r, 1, STATE) == FieldFrom(ps, 1, STATE) && (Opened(ps) ==> Opened(r))
  {
    hide IsFence, HasField, FenceFrom, FieldFrom;
    KeyInRange(ps, STATE);
    var f := FieldFrom(ps, 1, STATE);
    FenceFromUnique(ps[f := l], 1, FenceFrom(ps, 1));
    FieldFromUnique(ps[f := l], 1, STATE, f);
  }

  lemma HeadWithLine(h: seq<string>, f: nat, w: string)
    requires IsHead(h) && 1 <= f < |h| - 1 && NewlineFree(w) && !IsMarkerLine(w)
    ensures IsHead(h[f := w])
  {
    hide IsMarkerLine, NewlineFree;
  }

  /** The head after a change of state is again such a head. */
  lemma SetKeepsHead(h: seq<string>, f: nat, v: string)
    requires StateHead(h, f)
    ensures f < |h| && StateHead(h[f := Written(STATE, v)], f)
  {
    hide FmValue, IsFence, HasField, FenceFrom, FieldFrom, IsMarkerLine, Ending, NewlineFree, IsHead, HasKey;
    hide Written, FieldLine;
    var ps := Terminated(h);
    var w, l := Written(STATE, v), FieldLine(STATE, v, "\n");
    WrittenStateLine(v);
    KeyInRange(ps, STATE);
    SetPiecesKeepKey(ps, l);
    HeadWithLine(h, f, w);
    assert Terminated(h[f := w]) == ps[f := l];
  }

  lemma WrittenStateLine(v: string)
    ensures var w, l := Written(STATE, v), FieldLine(STATE, v, "\n");
            && l == w + "\n" && HasField(l, STATE) && !IsFence(l) && Ending(l) == "\n"
            && NewlineFree(w) && !IsMarkerLine(w)
  {
    hide FmValue, IsFence, HasField, IsMarkerLine, Ending;
    WrittenLine(STATE, v, "\n");
    EndingOfWritten(STATE, v, "\n");
    FieldNotMarker(FieldLine(STATE, v, "\n"), STATE);
    MarkerLineTerminated(Written(STATE, v));
    FmValueOneLine(v);
  }

  /** Every rendered brief has its state in line 5. */
  lemma MetaStateHead(spec: BriefSpec, meta: BriefMeta)
    ensures StateHead(MetaLines(spec, meta), 5)
  {
    hide FmValue, IsFence, HasField, FenceFrom, FieldFrom, IsHead, BriefLines, PlainField, Trim, Join, Ending;
    var fs, h := Fields(spec, meta), MetaLines(spec, meta);
    var ps := Terminated(h);
    MetaIsHead(spec, meta);
    FieldsPlain(spec, meta);
    var n := |fs|;
    assert fs[4].key == STATE && fs[..4] == BaseFields(spec, meta)[..4];
    forall i | 0 <= i < n
      ensures ps[i + 1] == FieldText(fs[i]) + "\n" && !IsFence(ps[i + 1])
      ensures HasField(ps[i + 1], STATE) <==> fs[i].key == STATE
      ensures Ending(ps[i + 1]) == "\n"
    {
      assert h[i + 1] == FieldText(fs[i]);
      RenderedLine(fs[i]);
    }
    FenceLine();
    assert ps[0] == FENCE + "\n" && h[n + 1] == FENCE && ps[n + 1] == FENCE + "\n";
    FenceFromUnique(ps, 1, n + 1);
    FieldFromUnique(ps, 1, STATE, 5);
  }

  lemma FenceLine()
    ensures IsFence(FENCE + "\n")
  {
    TrimEolOfLine(FENCE);
  }

  lemma RenderedLine(f: Field)
    requires PlainField(f)
    ensures !IsFence(FieldText(f) + "\n") && Ending(FieldText(f) + "\n") == "\n"
    ensures HasField(FieldText(f) + "\n", STATE) <==> f.key == STATE
  {
    hide PlainKey, Inert, SplitOnce, TrimEol;
    var l := FieldText(f);
    var p := l + "\n";
    assert p[..|p| - 1] == l;
    assert FullLine(p) && StripEol(p) == l;
    StatePlain();
    FieldIsKey(p, STATE);
    KeyedField(f);
    TrimEolText(l);
    assert l != "" ==> p[|p| - 2] == l[|l| - 1];
  }

  lemma StatePlain()
    ensures PlainKey(STATE)
  {
    LowerKeyPlain(STATE);
  }

  lemma TrimEolText(l: string)
    requires NewlineFree(l) && StripCr(l) == l
    ensures TrimEol(l + "\n") == l
  {
    assert (l + "\n")[..|l|] == l;
    assert l != "" ==> l[|l| - 1] in l;
  }

  // ---------- one writer after another ----------

  datatype Job = SetState(state: string) | Amend(entry: Entry)

  /** What one completed writer does to the file. */
  function ApplyJob(file: Option<string>, job: Job): Option<string> {
    match job
    case SetState(v) =>
      if file.None? then None else
        var updated := SetField(file.value, STATE, v);
        if updated.Some? then updated else file
    case Amend(e) => Some((if file.Some? then file.value else "") + Chunk(e))
  }

  function Serial(file: Option<string>, jobs: seq<Job>): Option<string> {
    if jobs == [] then file else ApplyJob(Serial(file, jobs[..|jobs| - 1]), jobs[|jobs| - 1])
  }

  function LastState(jobs: seq<Job>): Option<string> {
    if jobs == [] then None
    else if jobs[|jobs| - 1].SetState? then Some(jobs[|jobs| - 1].state)
    else LastState(jobs[..|jobs| - 1])
  }

  function Entries(jobs: seq<Job>): seq<Entry> {
    if jobs == [] then []
    else Entries(jobs[..|jobs| - 1]) + if jobs[|jobs| - 1].Amend? then [jobs[|jobs| - 1].entry] else []
  }

  predicate TimedJobs(jobs: seq<Job>) {
    forall i :: 0 <= i < |jobs| && jobs[i].Amend? ==> NewlineFree(jobs[i].entry.time)
  }

  function HeadAfter(h: seq<string>, f: nat, jobs: seq<Job>): seq<string>
    requires f < |h|
  {
    if LastState(jobs).Some? then h[f := Written(STATE, LastState(jobs).value)] else h
  }

  /** Any sequence of writers leaves the last state and every amendment, in order. */
  lemma {:induction false} SerialForm(h: seq<string>, f: nat, jobs: seq<Job>)
    requires StateHead(h, f) && f < |h|
    ensures Serial(Some(Unlines(h)), jobs) == Some(File(HeadAfter(h, f, jobs), Entries(jobs)))
    ensures StateHead(HeadAfter(h, f, jobs), f)
  {
    hide StateHead, Chunk, SetField, Written, Unlines;
    if jobs == [] {
      assert Unlines(h) + "" == Unlines(h);
    } else {
      var init, job := jobs[..|jobs| - 1], jobs[|jobs| - 1];
      SerialForm(h, f, init);
      var g, es := HeadAfter(h, f, init), Entries(init);
      match job
      case SetState(v) =>
        SetOnFile(g, f, Chunks(es), v);
        SetKeepsHead(g, f, v);
        assert HeadAfter(h, f, jobs) == g[f := Written(STATE, v)];
        assert Entries(jobs) == es;
      case Amend(e) =>
        assert Entries(jobs)[..|es|] == es;
        assert Unlines(g) + Chunks(es) + Chunk(e) == Unlines(g) + (Chunks(es) + Chunk(e));
    }
  }

  lemma {:induction false} EntriesTimed(jobs: seq<Job>)
    requires TimedJobs(jobs)
    ensures Timed(Entries(jobs))
  {
    hide NewlineFree;
    if jobs != [] { EntriesTimed(jobs[..|jobs| - 1]); }
  }

  lemma VisibleFile(h: seq<string>, f: nat, b: string)
    requires StateHead(h, f)
    ensures Visible(Lines(Unlines(h) + b))
  {
    hide Unlines, SplitInclusive, HasKey, IsMarkerLine;
    SplitFile(h, b);
    assert (Terminated(h) + SplitInclusive(b))[0] == FENCE + "\n";
    StripEolOfLine(FENCE);
  }

  /** Reading back a brief after any sequence of writers. */
  lemma SerialReads(spec: BriefSpec, meta: BriefMeta, jobs: seq<Job>)
    requires TimedJobs(jobs)
    ensures var r := Serial(Some(Unlines(MetaLines(spec, meta))), jobs);
            && r.Some?
            && Amendments(r.value, true) == Amendments(r.value, false) == Readings(Entries(jobs))
            && Get(r.value, STATE) == Some(FmValue(if LastState(jobs).Some? then LastState(jobs).value else meta.state))
  {
    hide StateHead, Amendments, Readings, Written, Get, FmValue, Unlines, MetaLines;
    var h := MetaLines(spec, meta);
    MetaStateHead(spec, meta);
    HeadOfState(h, 5);
    SerialForm(h, 5, jobs);
    EntriesTimed(jobs);
    var g, es := HeadAfter(h, 5, jobs), Entries(jobs);
    HeadOfState(g, 5);
    AmendmentRoundTrip(g, es, true);
    AmendmentRoundTrip(g, es, false);
    var v := if LastState(jobs).Some? then LastState(jobs).value else meta.state;
    StateLine(spec, meta);
    assert g == h[5 := Written(STATE, v)];
    SetOnFile(h, 5, Chunks(es), v);
    VisibleFile(h, 5, Chunks(es));
    StatePlain();
    SetThenGet(Unlines(h) + Chunks(es), STATE, v);
  }

  lemma HeadOfState(h: seq<string>, f: nat)
    requires StateHead(h, f)
    ensures IsHead(h) && f < |h|
  {
    hide IsHead;
    KeyInRange(Terminated(h), STATE);
  }

  lemma StateLine(spec: BriefSpec, meta: BriefMeta)
    ensures |MetaLines(spec, meta)| > 5 && MetaLines(spec, meta)[5] == Written(STATE, meta.state)
  {
    hide FmValue, BriefLines, Trim;
    assert MetaLines(spec, meta)[5] == FieldText(Fields(spec, meta)[4]);
  }
}
