/** What the startup sweep returns, and which briefs it can rewrite (src/archive.rs). */
module SweepLaws {
  import opened Text
  import opened FrontMatter
  import opened FrontMatterLaws
  import opened Archive
  import Brief
  import BriefMetadata
  import BriefWriters

  // ---------- the count ----------

  /** In one directory: every unfinished agent is either rewritten or stuck. */
  lemma {:induction false} AgentsRewrittenOrStuck(agents: seq<AgentFile>)
    ensures CountUnfinished(agents) == CountChanged(agents, SweepAgents(agents)) + CountStuck(agents)
  {
    hide Unfinished, Settable, SweepAgent;
    if agents != [] {
      var n := |agents| - 1;
      AgentsRewrittenOrStuck(agents[..n]);
      assert SweepAgents(agents)[..n] == SweepAgents(agents[..n]);
      if Unfinished(agents[n]) { SweptAgentReads(agents[n]); } else { FinishedStays(agents[n]); }
    }
  }

  lemma {:induction false} NothingChanged(agents: seq<AgentFile>)
    ensures CountChanged(agents, agents) == 0
  {
    if agents != [] { NothingChanged(agents[..|agents| - 1]); }
  }

  lemma SweepKeepsShape(runs: seq<RunDir>, current: string)
    ensures SameShape(runs, SweepRuns(runs, current))
  {
    hide SweepAgents, Sweepable;
  }

  /** The count returned is the briefs rewritten, plus the unfinished ones that could not be. */
  lemma {:induction false} SweptIsRewrittenPlusStuck(runs: seq<RunDir>, current: string)
    ensures SameShape(runs, SweepRuns(runs, current))
    ensures CountSwept(runs, current) == CountRewritten(runs, SweepRuns(runs, current)) + StuckInRuns(runs, current)
  {
    hide SweepAgents, CountUnfinished, CountStuck, CountChanged, Sweepable;
    SweepKeepsShape(runs, current);
    if runs != [] {
      var n := |runs| - 1;
      SweptIsRewrittenPlusStuck(runs[..n], current);
      assert SweepRuns(runs, current)[..n] == SweepRuns(runs[..n], current);
      AgentsRewrittenOrStuck(runs[n].agents);
      NothingChanged(runs[n].agents);
    }
  }

  /** So it is the number of briefs rewritten exactly when every unfinished agent can be rewritten. */
  lemma SweepReturnsRewrittenExactly(runs: seq<RunDir>, current: string)
    ensures SameShape(runs, SweepRuns(runs, current))
    ensures CountSwept(runs, current) == CountRewritten(runs, SweepRuns(runs, current)) <==> AllSettable(runs, current)
  {
    hide SweepRuns, CountSwept, CountRewritten, AllSettable, StuckInRuns, SameShape;
    SweptIsRewrittenPlusStuck(runs, current);
    StuckZero(runs, current);
  }

  // ---------- reader and writers of a block ----------

  /** Taking off every trailing line ending, of a piece or of the line it reads as, comes to the same. */
  lemma TrimEolOfStripped(p: string)
    ensures TrimEol(p) == TrimEol(StripEol(p))
  {
    var l := StripEol(p);
    if EndsLine(p) {
      var b := p[..|p| - 1];
      assert TrimEol(p) == TrimEol(b);
      assert l == StripCr(b);
    }
  }

  /** No line after the first is a fence for the writers alone: none ends in carriage returns the reader keeps. */
  predicate ClearFences(ls: seq<string>) {
    forall k :: 1 <= k < |ls| && TrimEol(ls[k]) == FENCE ==> ls[k] == FENCE
  }

  /** The reader finds a closing fence. */
  predicate ReaderCloses(ls: seq<string>) {
    exists k :: 1 <= k < |ls| && ls[k] == FENCE
  }

  lemma {:induction false} LookupFound(lines: seq<string>, key: string) returns (k: nat)
    requires LookupLines(lines, key).Some?
    ensures k < |lines| && KeyIs(lines[k], key)
    ensures forall j :: 0 <= j <= k ==> lines[j] != FENCE
  {
    hide KeyIs;
    if KeyIs(lines[0], key) {
      k := 0;
    } else {
      var j := LookupFound(lines[1..], key);
      k := j + 1;
      assert forall i :: 1 <= i <= k ==> lines[i] == lines[1..][i - 1];
    }
  }

  lemma FencesAsLines(content: string, k: nat)
    requires k < |Lines(content)| && ClearFences(Lines(content))
    ensures Lines(content)[k] == FENCE ==> IsFence(SplitInclusive(content)[k])
    ensures k >= 1 && IsFence(SplitInclusive(content)[k]) ==> Lines(content)[k] == FENCE
  {
    hide StripEol, TrimEol;
    var p := SplitInclusive(content)[k];
    TrimEolOfStripped(p);
    assert TrimEol(FENCE) == FENCE by { FenceTrims(); }
  }

  lemma FenceTrims()
    ensures TrimEol(FENCE) == FENCE
  {
  }

  /**
   * A brief in which the reader finds the key can be rewritten exactly when the reader finds the block closed too,
   * unless some fence line ends in carriage returns that only the writers overlook.
   */
  lemma ReadableIsSettable(content: string, key: string)
    requires PlainKey(key) && Get(content, key).Some? && ClearFences(Lines(content))
    ensures HasKey(SplitInclusive(content), key) <==> ReaderCloses(Lines(content))
  {
    hide PlainKey, Lines, ClearFences, KeyIs, HasField, IsFence, LookupLines, SplitInclusive;
    var ps, ls := SplitInclusive(content), Lines(content);
    GetLines(content, key);
    var i := LookupFound(ls[1..], key);
    var k := i + 1;
    LinesMatch(content, k, key);
    forall j | 1 <= j <= k ensures !IsFence(ps[j]) {
      assert ls[j] == ls[1..][j - 1];
      FencesAsLines(content, j);
    }
    FencesAsLines(content, 0);
    assert FieldFrom(ps, 1, key) <= k < FenceFrom(ps, 1);
    var c := FenceFrom(ps, 1);
    if c < |ps| { FencesAsLines(content, c); }
    if ReaderCloses(ls) {
      var m :| 1 <= m < |ls| && ls[m] == FENCE;
      FencesAsLines(content, m);
    }
  }

  lemma LinesMatch(content: string, k: nat, key: string)
    requires PlainKey(key) && k < |Lines(content)|
    ensures |SplitInclusive(content)| == |Lines(content)|
    ensures HasField(SplitInclusive(content)[k], key) <==> KeyIs(Lines(content)[k], key)
  {
    hide PlainKey, StripEol, HasField, KeyIs;
    PieceKinds(SplitInclusive(content), k);
    FieldIsKey(SplitInclusive(content)[k], key);
  }

  // ---------- the briefs nanopi itself writes ----------

  /** A rendered brief after any state changes and appends, with any text behind it: an append may be cut short. */
  ghost predicate WrittenBrief(text: string) {
    exists spec: Brief.BriefSpec, meta: BriefMetadata.BriefMeta, jobs: seq<BriefWriters.Job>, tail: string ::
      WrittenAs(text, spec, meta, jobs, tail)
  }

  predicate WrittenAs(
      text: string, spec: Brief.BriefSpec, meta: BriefMetadata.BriefMeta, jobs: seq<BriefWriters.Job>, tail: string)
  {
    var file := BriefWriters.Serial(Some(Unlines(BriefMetadata.MetaLines(spec, meta))), jobs);
    file.Some? && text == file.value + tail
  }

  /** Each of those can be rewritten. */
  lemma WrittenHasState(text: string)
    requires WrittenBrief(text)
    ensures HasState(text)
  {
    hide HasState, BriefWriters.Serial, BriefMetadata.MetaLines, Unlines, BriefWriters.StateHead;
    var spec, meta, jobs, tail :| WrittenAs(text, spec, meta, jobs, tail);
    var g, b := WrittenHead(spec, meta, jobs);
    assert Unlines(g) + (b + tail) == text;
    HeadHasState(g, b + tail);
  }

  predicate HasState(text: string) { HasKey(SplitInclusive(text), STATE) }

  lemma HeadHasState(g: seq<string>, b: string)
    requires BriefWriters.StateHead(g, 5)
    ensures HasState(Unlines(g) + b)
  {
    hide SplitInclusive, HasKey, Unlines, SetField, BriefWriters.StateHead, FmValue;
    BriefWriters.SetOnFile(g, 5, b, "");
    SetIffKey(Unlines(g) + b, STATE, "");
  }

  lemma WrittenHead(spec: Brief.BriefSpec, meta: BriefMetadata.BriefMeta, jobs: seq<BriefWriters.Job>)
    returns (g: seq<string>, b: string)
    ensures BriefWriters.StateHead(g, 5)
    ensures BriefWriters.Serial(Some(Unlines(BriefMetadata.MetaLines(spec, meta))), jobs) == Some(Unlines(g) + b)
  {
    hide BriefWriters.Serial, BriefMetadata.MetaLines, Unlines, BriefWriters.StateHead, Brief.Chunks;
    hide BriefWriters.HeadAfter, BriefWriters.Entries;
    var h := BriefMetadata.MetaLines(spec, meta);
    BriefWriters.MetaStateHead(spec, meta);
    BriefWriters.HeadOfState(h, 5);
    BriefWriters.SerialForm(h, 5, jobs);
    g, b := BriefWriters.HeadAfter(h, 5, jobs), Brief.Chunks(BriefWriters.Entries(jobs));
  }

  ghost predicate AllWritten(runs: seq<RunDir>) {
    forall i, j :: 0 <= i < |runs| && 0 <= j < |runs[i].agents| && runs[i].agents[j].brief.Some? ==>
      WrittenBrief(runs[i].agents[j].brief.value)
  }

  /** Where every brief is one of those, the count is exact, and a second sweep finds nothing. */
  lemma WrittenRunsAreSwept(runs: seq<RunDir>, current: string)
    requires AllWritten(runs)
    ensures AllSettable(runs, current) && SameShape(runs, SweepRuns(runs, current))
    ensures CountSwept(runs, current) == CountRewritten(runs, SweepRuns(runs, current))
    ensures CountSwept(SweepRuns(runs, current), current) == 0
  {
    hide WrittenBrief, SweepRuns, CountSwept, CountRewritten, SplitInclusive, HasKey, Get, SameShape;
    forall i | 0 <= i < |runs| ensures AgentsSettable(runs[i].agents) {
      forall j | 0 <= j < |runs[i].agents| && Unfinished(runs[i].agents[j]) ensures Settable(runs[i].agents[j]) {
        WrittenHasState(runs[i].agents[j].brief.value);
      }
    }
    SweepReturnsRewrittenExactly(runs, current);
    SecondSweepIsZero(runs, current);
  }
}
