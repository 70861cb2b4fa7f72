/** The agent archive on disk: the startup sweep and pruning of old runs (src/archive.rs). */
module Archive {
  import opened Text
  import opened Sequences
  import Decimal
  import FrontMatter
  import FrontMatterLaws
  import AgentIds
  import Agents

  const INTERRUPTED: string := "interrupted"

  predicate IsTerminalState(s: string) {
    s == "done" || s == "failed" || s == "stopped" || s == "limit_reached" || s == "interrupted"
  }

  // ---------- run names ----------

  predicate AllOf(s: string, ok: char -> bool) {
    forall i :: 0 <= i < |s| ==> ok(s[i])
  }

  predicate IsHex(c: char) { '0' <= c <= '9' || 'a' <= c <= 'f' || 'A' <= c <= 'F' }

  /** `splitn(3, '-')` has three parts of 8 digits, 6 digits and 8 hex digits. */
  predicate IsRunIdShaped(name: string) {
    var i := Find(name, "-");
    i < |name|
    && var rest := name[i + 1..];
       var j := Find(rest, "-");
       j < |rest|
       && |name[..i]| == 8 && AllOf(name[..i], Decimal.IsDigit)
       && |rest[..j]| == 6 && AllOf(rest[..j], Decimal.IsDigit)
       && |rest[j + 1..]| == 8 && AllOf(rest[j + 1..], IsHex)
  }

  // ---------- what is on disk ----------

  /** An entry of a run directory, with the text of its `brief.md` when that can be read. */
  datatype AgentFile = AgentFile(isDir: bool, brief: Option<string>)

  /** An entry of the archive. `isDir` follows links; `live` says whether `run.pid` names a live process. */
  datatype RunDir = RunDir(
    name: string, isDir: bool, isLink: bool, live: bool, started: int, bytes: nat, agents: seq<AgentFile>)

  /** The recorded state, when the entry is an agent with one. */
  function StateOf(a: AgentFile): Option<string> {
    if a.isDir && a.brief.Some? then FrontMatter.Get(a.brief.value, FrontMatter.STATE) else None
  }

  /** An agent whose recorded state is not terminal. */
  predicate Unfinished(a: AgentFile) { StateOf(a).Some? && !IsTerminalState(StateOf(a).value) }

  /** The brief has a state line inside a block that its writers see opened and closed. */
  predicate Settable(a: AgentFile) {
    a.brief.Some? && FrontMatter.HasKey(SplitInclusive(a.brief.value), FrontMatter.STATE)
  }

  // ---------- the sweep ----------

  function SetAgentState(a: AgentFile, state: string): AgentFile {
    if a.brief.None? then a else
      var updated := FrontMatter.SetField(a.brief.value, FrontMatter.STATE, state);
      if updated.Some? then a.(brief := updated) else a
  }

  function SweepAgent(a: AgentFile): AgentFile {
    if Unfinished(a) then SetAgentState(a, INTERRUPTED) else a
  }

  function SweepAgents(agents: seq<AgentFile>): (r: seq<AgentFile>)
    ensures |r| == |agents|
  {
    seq(|agents|, i requires 0 <= i < |agents| => SweepAgent(agents[i]))
  }

  function CountUnfinished(agents: seq<AgentFile>): nat {
    if agents == [] then 0
    else CountUnfinished(agents[..|agents| - 1]) + if Unfinished(agents[|agents| - 1]) then 1 else 0
  }

  /** Dead runs other than the current one are swept. */
  predicate Sweepable(r: RunDir, current: string) { r.isDir && r.name != current && !r.live }

  function SweepRun(r: RunDir, current: string): RunDir {
    if Sweepable(r, current) then r.(agents := SweepAgents(r.agents)) else r
  }

  function SweepRuns(runs: seq<RunDir>, current: string): (r: seq<RunDir>)
    ensures |r| == |runs|
  {
    seq(|runs|, i requires 0 <= i < |runs| => SweepRun(runs[i], current))
  }

  function CountSwept(runs: seq<RunDir>, current: string): nat {
    if runs == [] then 0
    else
      var r := runs[|runs| - 1];
      CountSwept(runs[..|runs| - 1], current) + if Sweepable(r, current) then CountUnfinished(r.agents) else 0
  }

  function CountChanged(before: seq<AgentFile>, after: seq<AgentFile>): nat
    requires |before| == |after|
  {
    if before == [] then 0 else
      var n := |before| - 1;
      CountChanged(before[..n], after[..n]) + if before[n] != after[n] then 1 else 0
  }

  predicate SameShape(before: seq<RunDir>, after: seq<RunDir>) {
    |before| == |after| && forall i :: 0 <= i < |before| ==> |before[i].agents| == |after[i].agents|
  }

  /** How many briefs of the archive differ. */
  function CountRewritten(before: seq<RunDir>, after: seq<RunDir>): nat
    requires SameShape(before, after)
  {
    if before == [] then 0 else
      var n := |before| - 1;
      CountRewritten(before[..n], after[..n]) + CountChanged(before[n].agents, after[n].agents)
  }

  // ---------- days ----------

  type u64 = n: nat | n < 0x1_0000_0000_0000_0000

  /** `as i64` */
  function AsI64(n: u64): int {
    if n < 0x8000_0000_0000_0000 then n else n - 0x1_0000_0000_0000_0000
  }

  /** The length of a day and the dates that can be represented, in the same unit as times. */
  datatype Calendar = Calendar(day: nat, first: int, last: int)

  predicate OnCalendar(c: Calendar, t: int) { c.first <= t <= c.last }

  function Cutoff(days: u64, now: int, calendar: Calendar): Option<int> {
    var t := now - AsI64(days) * calendar.day;
    if OnCalendar(calendar, t) then Some(t) else None
  }

  // ---------- cleaning ----------

  datatype CleanMode = AllButCurrent | OlderThanDays(days: u64) | KeepRecent(keep: nat)

  /** Which candidates go: a mode with its date worked out. */
  datatype Choice = Every | StartedBy(cutoff: int) | AllButLatest(keep: nat)

  /** `None` when the date that many days ago is off the calendar, where the date arithmetic panics. */
  function ChoiceOf(mode: CleanMode, now: int, calendar: Calendar): Option<Choice> {
    match mode
    case AllButCurrent => Some(Every)
    case KeepRecent(keep) => Some(AllButLatest(keep))
    case OlderThanDays(days) =>
      var cutoff := Cutoff(days, now, calendar);
      if cutoff.Some? then Some(StartedBy(cutoff.value)) else None
  }

  datatype CleanReport = CleanReport(removedRuns: nat, removedBytes: nat, skippedLive: seq<string>)

  predicate HasUnfinished(agents: seq<AgentFile>) {
    exists i :: 0 <= i < |agents| && Unfinished(agents[i])
  }

  /** A live run, or one with an unfinished agent, is never deleted. */
  predicate Protected(r: RunDir) { r.live || HasUnfinished(r.agents) }

  /** A real run directory other than the current one. */
  predicate Considered(r: RunDir, current: string) {
    r.name != current && !r.isLink && r.isDir && IsRunIdShaped(r.name)
  }

  predicate Candidate(r: RunDir, current: string) { Considered(r, current) && !Protected(r) }

  function Candidates(runs: seq<RunDir>, current: string): seq<RunDir> {
    if runs == [] then [] else
      var r := runs[|runs| - 1];
      Candidates(runs[..|runs| - 1], current) + if Candidate(r, current) then [r] else []
  }

  function SkippedLive(runs: seq<RunDir>, current: string): seq<string> {
    if runs == [] then [] else
      var r := runs[|runs| - 1];
      SkippedLive(runs[..|runs| - 1], current) + if Considered(r, current) && Protected(r) then [r.name] else []
  }

  function OldOnes(cs: seq<RunDir>, cutoff: int): seq<RunDir> {
    if cs == [] then [] else
      OldOnes(cs[..|cs| - 1], cutoff) + if cs[|cs| - 1].started <= cutoff then [cs[|cs| - 1]] else []
  }

  predicate Later(a: RunDir, b: RunDir) { a.started >= b.started }

  /** Latest start first. */
  function SortRecent(cs: seq<RunDir>): seq<RunDir> { Sort(cs, Later) }

  function ToRemove(cs: seq<RunDir>, choice: Choice): seq<RunDir> {
    match choice
    case Every => cs
    case StartedBy(cutoff) => OldOnes(cs, cutoff)
    case AllButLatest(keep) => var s := SortRecent(cs); if keep <= |s| then s[keep..] else []
  }

  function Without(runs: seq<RunDir>, name: string): seq<RunDir> {
    if runs == [] then [] else
      var r := runs[|runs| - 1];
      Without(runs[..|runs| - 1], name) + if r.name == name then [] else [r]
  }

  function WithoutAll(runs: seq<RunDir>, gone: seq<RunDir>): seq<RunDir> {
    if gone == [] then runs else Without(WithoutAll(runs, gone[..|gone| - 1]), gone[|gone| - 1].name)
  }

  function TotalBytes(cs: seq<RunDir>): nat {
    if cs == [] then 0 else TotalBytes(cs[..|cs| - 1]) + cs[|cs| - 1].bytes
  }

  class RunsDir {
    var runs: seq<RunDir>

    constructor (runs: seq<RunDir>)
      ensures this.runs == runs
    {
      this.runs := runs;
    }

    /** Mark every unfinished agent of a dead, non-current run as interrupted. */
    method MarkInterrupted(current: string) returns (count: nat)
      modifies this
      ensures runs == SweepRuns(old(runs), current)
      ensures count == CountSwept(old(runs), current)
    {
      hide Unfinished;
      count := 0;
      for i := 0 to |runs|
        invariant |runs| == |old(runs)|
        invariant forall k :: 0 <= k < i ==> runs[k] == SweepRun(old(runs)[k], current)
        invariant forall k :: i <= k < |runs| ==> runs[k] == old(runs)[k]
        invariant count == CountSwept(old(runs)[..i], current)
      {
        assert old(runs)[..i + 1][..i] == old(runs)[..i];
        var r := runs[i];
        if !r.isDir || r.name == current || r.live { continue; }
        var agents, n := SweepDirectory(r.agents);
        runs := runs[i := r.(agents := agents)];
        count := count + n;
      }
      assert old(runs)[..|runs|] == old(runs);
    }

    /** Delete runs as the mode says; protected runs are reported instead. `None` is a panic, with nothing removed. */
    method CleanRuns(current: string, mode: CleanMode, now: int, calendar: Calendar)
      returns (report: Option<CleanReport>)
      modifies this
      ensures ChoiceOf(mode, now, calendar).None? ==> runs == old(runs) && report == None
      ensures ChoiceOf(mode, now, calendar).Some? ==>
                var gone := ToRemove(Candidates(old(runs), current), ChoiceOf(mode, now, calendar).value);
                && runs == WithoutAll(old(runs), gone)
                && report == Some(CleanReport(|gone|, TotalBytes(gone), SkippedLive(old(runs), current)))
    {
      hide Protected, Considered, ToRemove, Without, ChoiceOf;
      var candidates: seq<RunDir>, skipped: seq<string> := [], [];
      for i := 0 to |runs|
        invariant runs == old(runs)
        invariant candidates == Candidates(runs[..i], current) && skipped == SkippedLive(runs[..i], current)
      {
        assert runs[..i + 1][..i] == runs[..i];
        var r := runs[i];
        if !Considered(r, current) { continue; }
        if Protected(r) {
          skipped := skipped + [r.name];
        } else {
          candidates := candidates + [r];
        }
      }
      assert runs[..|runs|] == runs;
      var choice := ChoiceOf(mode, now, calendar);
      if choice.None? { return None; }
      var gone := ToRemove(candidates, choice.value);
      var bytes := 0;
      for i := 0 to |gone|
        invariant runs == WithoutAll(old(runs), gone[..i]) && bytes == TotalBytes(gone[..i])
      {
        assert gone[..i + 1][..i] == gone[..i];
        bytes := bytes + gone[i].bytes;
        runs := Without(runs, gone[i].name);
      }
      assert gone[..|gone|] == gone;
      report := Some(CleanReport(|gone|, bytes, skipped));
    }

    /** Startup pruning: nothing when `keepDays` is zero, else a clean by age. */
    method AutoPrune(current: string, keepDays: u64, now: int, calendar: Calendar) returns (report: Option<CleanReport>)
      modifies this
      ensures keepDays == 0 ==> runs == old(runs) && report == Some(CleanReport(0, 0, []))
      ensures keepDays != 0 && Cutoff(keepDays, now, calendar).None? ==> runs == old(runs) && report == None
      ensures keepDays != 0 && Cutoff(keepDays, now, calendar).Some? ==>
                var cutoff := Cutoff(keepDays, now, calendar).value;
                var gone := ToRemove(Candidates(old(runs), current), StartedBy(cutoff));
                && runs == WithoutAll(old(runs), gone)
                && report == Some(CleanReport(|gone|, TotalBytes(gone), SkippedLive(old(runs), current)))
    {
      hide Cutoff, ToRemove, Candidates, WithoutAll, TotalBytes, SkippedLive;
      if keepDays == 0 { return Some(CleanReport(0, 0, [])); }
      report := CleanRuns(current, OlderThanDays(keepDays), now, calendar);
    }
  }

  method SweepDirectory(agents: seq<AgentFile>) returns (r: seq<AgentFile>, count: nat)
    ensures r == SweepAgents(agents) && count == CountUnfinished(agents)
  {
    hide FrontMatter.Get, FrontMatter.SetField, IsTerminalState;
    r, count := agents, 0;
    for i := 0 to |agents|
      invariant |r| == |agents| && count == CountUnfinished(agents[..i])
      invariant forall k :: 0 <= k < i ==> r[k] == SweepAgent(agents[k])
      invariant forall k :: i <= k < |agents| ==> r[k] == agents[k]
    {
      assert agents[..i + 1][..i] == agents[..i];
      var a := agents[i];
      if !a.isDir || a.brief.None? { continue; }
      var state := FrontMatter.Get(a.brief.value, FrontMatter.STATE);
      if state.None? || IsTerminalState(state.value) { continue; }
      r := r[i := SetAgentState(a, INTERRUPTED)];
      count := count + 1;
    }
    assert agents[..|agents|] == agents;
  }

  // ---------- what the sweep achieves ----------

  lemma InterruptedValue()
    ensures FrontMatter.FmValue(INTERRUPTED) == INTERRUPTED
  {
    assert |INTERRUPTED| == 11;
    assert Tidy(INTERRUPTED) by { LowerTidy(INTERRUPTED); }
    TidyFixed(INTERRUPTED);
  }

  lemma LowerTidy(s: string)
    requires forall i :: 0 <= i < |s| ==> 'a' <= s[i] <= 'z'
    ensures Tidy(s)
  {
  }

  lemma StateKeyPlain()
    ensures FrontMatterLaws.PlainKey(FrontMatter.STATE)
  {
    FrontMatterLaws.LowerKeyPlain(FrontMatter.STATE);
  }

  /** A set succeeds exactly when the key is in a closed block. */
  lemma SetIffKey(content: string, key: string, value: string)
    ensures FrontMatter.SetField(content, key, value).Some? <==> FrontMatter.HasKey(SplitInclusive(content), key)
  {
    hide FrontMatter.FieldLine, FrontMatter.Ending, SplitInclusive, FrontMatter.HasKey;
  }

  /** After the sweep an unfinished agent reads as interrupted exactly when its state could be rewritten. */
  lemma SweptAgentReads(a: AgentFile)
    requires Unfinished(a)
    ensures Settable(a) ==> StateOf(SweepAgent(a)) == Some(INTERRUPTED) && !Unfinished(SweepAgent(a))
    ensures !Settable(a) ==> SweepAgent(a) == a
  {
    hide FrontMatter.SetField, FrontMatter.FmValue, FrontMatter.HasKey, SplitInclusive;
    if a.brief.Some? { SetIffKey(a.brief.value, FrontMatter.STATE, INTERRUPTED); }
    if Settable(a) {
      InterruptedValue();
      StateKeyPlain();
      FrontMatterLaws.SetThenGet(a.brief.value, FrontMatter.STATE, INTERRUPTED);
      FrontMatterLaws.GetLines(a.brief.value, FrontMatter.STATE);
    }
  }

  /** Every other field of a swept brief keeps its value. */
  lemma SweepKeepsOtherFields(a: AgentFile, key: string)
    requires a.brief.Some? && key != FrontMatter.STATE
    ensures SweepAgent(a).brief.Some?
    ensures FrontMatter.Get(SweepAgent(a).brief.value, key) == FrontMatter.Get(a.brief.value, key)
  {
    hide FrontMatter.SetField, FrontMatter.Get, FrontMatter.HasKey, SplitInclusive;
    StateKeyPlain();
    SetIffKey(a.brief.value, FrontMatter.STATE, INTERRUPTED);
    if Unfinished(a) && Settable(a) {
      FrontMatterLaws.SetKeepsOtherKeys(a.brief.value, FrontMatter.STATE, INTERRUPTED, key);
    }
  }

  function CountStuck(agents: seq<AgentFile>): nat {
    if agents == [] then 0 else
      var a := agents[|agents| - 1];
      CountStuck(agents[..|agents| - 1]) + if Unfinished(a) && !Settable(a) then 1 else 0
  }

  lemma {:induction false} SweptCount(agents: seq<AgentFile>)
    ensures CountUnfinished(SweepAgents(agents)) == CountStuck(agents)
  {
    hide Unfinished, Settable, SweepAgent;
    if agents != [] {
      var n := |agents| - 1;
      SweptCount(agents[..n]);
      assert SweepAgents(agents)[..n] == SweepAgents(agents[..n]);
      if Unfinished(agents[n]) { SweptAgentReads(agents[n]); } else { FinishedStays(agents[n]); }
    }
  }

  lemma FinishedStays(a: AgentFile)
    requires !Unfinished(a)
    ensures SweepAgent(a) == a
  {
  }

  function StuckInRuns(runs: seq<RunDir>, current: string): nat {
    if runs == [] then 0 else
      var r := runs[|runs| - 1];
      StuckInRuns(runs[..|runs| - 1], current) + if Sweepable(r, current) then CountStuck(r.agents) else 0
  }

  /** A second sweep counts exactly the agents whose front matter the first could not rewrite. */
  lemma {:induction false} SecondSweepCounts(runs: seq<RunDir>, current: string)
    ensures CountSwept(SweepRuns(runs, current), current) == StuckInRuns(runs, current)
  {
    hide SweepAgents, CountUnfinished, CountStuck;
    if runs != [] {
      var n := |runs| - 1;
      SecondSweepCounts(runs[..n], current);
      assert SweepRuns(runs, current)[..n] == SweepRuns(runs[..n], current);
      SweptCount(runs[n].agents);
    }
  }

  /** Every unfinished agent of every swept run can be rewritten. */
  predicate AllSettable(runs: seq<RunDir>, current: string) {
    forall i :: 0 <= i < |runs| && Sweepable(runs[i], current) ==> AgentsSettable(runs[i].agents)
  }

  predicate AgentsSettable(agents: seq<AgentFile>) {
    forall j :: 0 <= j < |agents| && Unfinished(agents[j]) ==> Settable(agents[j])
  }

  lemma {:induction false} NoneStuck(agents: seq<AgentFile>)
    ensures CountStuck(agents) == 0 <==> AgentsSettable(agents)
  {
    hide Unfinished, Settable;
    if agents != [] {
      var n := |agents| - 1;
      NoneStuck(agents[..n]);
      assert forall j :: 0 <= j < n ==> agents[..n][j] == agents[j];
    }
  }

  /** The second sweep finds nothing exactly when every unfinished agent had front matter that could be rewritten. */
  lemma {:induction false} SecondSweepIsZero(runs: seq<RunDir>, current: string)
    ensures CountSwept(SweepRuns(runs, current), current) == 0 <==> AllSettable(runs, current)
  {
    hide Unfinished, Settable, SweepRuns, CountSwept;
    SecondSweepCounts(runs, current);
    StuckZero(runs, current);
  }

  lemma {:induction false} StuckZero(runs: seq<RunDir>, current: string)
    ensures StuckInRuns(runs, current) == 0 <==> AllSettable(runs, current)
  {
    hide AgentsSettable, CountStuck, Sweepable;
    if runs != [] {
      var n := |runs| - 1;
      StuckZero(runs[..n], current);
      NoneStuck(runs[n].agents);
      assert forall i :: 0 <= i < n ==> runs[..n][i] == runs[i];
    }
  }

  /** The sweep touches no brief of a live or the current run, and no finished or stateless one. */
  lemma SweepTouchesOnlyUnfinished(runs: seq<RunDir>, current: string, i: nat, j: nat)
    requires i < |runs| && j < |runs[i].agents|
    ensures var swept := SweepRuns(runs, current)[i];
            && swept.(agents := []) == runs[i].(agents := []) && |swept.agents| == |runs[i].agents|
            && (swept.agents[j] != runs[i].agents[j] ==>
                  Sweepable(runs[i], current) && Unfinished(runs[i].agents[j]) && Settable(runs[i].agents[j])
                  && StateOf(swept.agents[j]) == Some(INTERRUPTED))
  {
    hide Unfinished, Settable, StateOf, SweepAgent;
    if Sweepable(runs[i], current) {
      var a := runs[i].agents[j];
      if Unfinished(a) { SweptAgentReads(a); } else { FinishedStays(a); }
    }
  }

  // ---------- what cleaning leaves ----------

  /** File names in one directory are distinct. */
  predicate DistinctNames(runs: seq<RunDir>) {
    forall i, j :: 0 <= i < j < |runs| ==> runs[i].name != runs[j].name
  }

  lemma {:induction false} CandidatesMembers(runs: seq<RunDir>, current: string, r: RunDir)
    ensures r in Candidates(runs, current) <==> r in runs && Candidate(r, current)
  {
    hide Candidate;
    if runs != [] {
      var n := |runs| - 1;
      CandidatesMembers(runs[..n], current, r);
      assert runs == runs[..n] + [runs[n]];
    }
  }

  lemma {:induction false} WithoutMembers(runs: seq<RunDir>, name: string, r: RunDir)
    ensures r in Without(runs, name) <==> r in runs && r.name != name
  {
    if runs != [] {
      var n := |runs| - 1;
      WithoutMembers(runs[..n], name, r);
      assert runs == runs[..n] + [runs[n]];
    }
  }

  lemma {:induction false} WithoutAllMembers(runs: seq<RunDir>, gone: seq<RunDir>, r: RunDir)
    ensures r in WithoutAll(runs, gone) <==> r in runs && forall g :: g in gone ==> g.name != r.name
  {
    if gone != [] {
      var n := |gone| - 1;
      WithoutAllMembers(runs, gone[..n], r);
      WithoutMembers(WithoutAll(runs, gone[..n]), gone[n].name, r);
      assert gone == gone[..n] + [gone[n]];
    }
  }

  lemma {:induction false} OldMembers(cs: seq<RunDir>, cutoff: int, r: RunDir)
    ensures r in OldOnes(cs, cutoff) <==> r in cs && r.started <= cutoff
  {
    if cs != [] {
      var n := |cs| - 1;
      OldMembers(cs[..n], cutoff, r);
      assert cs == cs[..n] + [cs[n]];
    }
  }

  lemma SortRecentSorts(cs: seq<RunDir>)
    ensures Sorted(SortRecent(cs), Later) && multiset(SortRecent(cs)) == multiset(cs) && |SortRecent(cs)| == |cs|
  {
    SortSorts(cs, Later);
  }

  lemma GoneAreCandidates(cs: seq<RunDir>, choice: Choice, r: RunDir)
    requires r in ToRemove(cs, choice)
    ensures r in cs
  {
    hide OldOnes, SortRecent;
    match choice
    case Every =>
    case StartedBy(cutoff) => OldMembers(cs, cutoff, r);
    case AllButLatest(keep) =>
      SortRecentSorts(cs);
      assert r in multiset(SortRecent(cs));
  }

  /** Exactly the chosen runs disappear; so the current, protected and foreign entries stay, whatever is chosen. */
  lemma CleanRemovesOnlyChosen(runs: seq<RunDir>, current: string, choice: Choice, r: RunDir)
    requires DistinctNames(runs) && r in runs
    ensures var gone := ToRemove(Candidates(runs, current), choice);
            && (r in WithoutAll(runs, gone) <==> r !in gone)
            && (!Candidate(r, current) ==> r in WithoutAll(runs, gone))
  {
    hide Candidate, ToRemove, Candidates, WithoutAll;
    var gone := ToRemove(Candidates(runs, current), choice);
    WithoutAllMembers(runs, gone, r);
    CandidatesMembers(runs, current, r);
    forall g | g in gone ensures g in runs {
      GoneAreCandidates(Candidates(runs, current), choice, g);
      CandidatesMembers(runs, current, g);
    }
    if r in gone { GoneAreCandidates(Candidates(runs, current), choice, r); }
  }

  /** Pruning by age removes exactly the candidates at least that old. */
  lemma OlderThanRemovesOld(runs: seq<RunDir>, current: string, cutoff: int, r: RunDir)
    requires DistinctNames(runs) && r in runs
    ensures r in WithoutAll(runs, ToRemove(Candidates(runs, current), StartedBy(cutoff)))
       <==> !(Candidate(r, current) && r.started <= cutoff)
  {
    hide Candidate, WithoutAll, Candidates;
    CleanRemovesOnlyChosen(runs, current, StartedBy(cutoff), r);
    OldMembers(Candidates(runs, current), cutoff, r);
    CandidatesMembers(runs, current, r);
  }

  /** Keeping `n` keeps the latest: min(n, count) candidates stay, none of them started before a removed one. */
  lemma KeepRecentKeepsLatest(runs: seq<RunDir>, current: string, keep: nat)
    ensures var cs := Candidates(runs, current);
            var sorted, gone := SortRecent(cs), ToRemove(cs, AllButLatest(keep));
            && |sorted| == |cs| && multiset(sorted) == multiset(cs)
            && |gone| == |cs| - (if keep < |cs| then keep else |cs|)
            && sorted[..|cs| - |gone|] + gone == sorted
            && forall k, g :: k in sorted[..|cs| - |gone|] && g in gone ==> k.started >= g.started
  {
    hide Candidates, SortRecent;
    var cs := Candidates(runs, current);
    SortRecentSorts(cs);
    var sorted, gone := SortRecent(cs), ToRemove(cs, AllButLatest(keep));
    var n := |cs| - |gone|;
    forall k, g | k in sorted[..n] && g in gone ensures k.started >= g.started {
      var i :| 0 <= i < n && sorted[..n][i] == k;
      var j :| 0 <= j < |gone| && gone[j] == g;
      assert sorted[i] == k && sorted[n + j] == g;
    }
  }

  lemma {:induction false} CandidatesCount(runs: seq<RunDir>, current: string, r: RunDir)
    ensures multiset(Candidates(runs, current))[r] == if Candidate(r, current) then multiset(runs)[r] else 0
  {
    hide Candidate;
    if runs != [] {
      var n := |runs| - 1;
      CandidatesCount(runs[..n], current, r);
      assert multiset(runs) == multiset(runs[..n]) + multiset{runs[n]} by { assert runs == runs[..n] + [runs[n]]; }
    }
  }

  lemma {:induction false} WithoutCount(runs: seq<RunDir>, name: string, r: RunDir)
    ensures multiset(Without(runs, name))[r] == if r.name == name then 0 else multiset(runs)[r]
  {
    if runs != [] {
      var n := |runs| - 1;
      WithoutCount(runs[..n], name, r);
      assert multiset(runs) == multiset(runs[..n]) + multiset{runs[n]} by { assert runs == runs[..n] + [runs[n]]; }
    }
  }

  predicate Named(gone: seq<RunDir>, name: string) {
    exists g :: g in gone && g.name == name
  }

  lemma {:induction false} WithoutAllCount(runs: seq<RunDir>, gone: seq<RunDir>, r: RunDir)
    ensures multiset(WithoutAll(runs, gone))[r] == if Named(gone, r.name) then 0 else multiset(runs)[r]
  {
    hide Without;
    if gone != [] {
      var n := |gone| - 1;
      WithoutAllCount(runs, gone[..n], r);
      WithoutCount(WithoutAll(runs, gone[..n]), gone[n].name, r);
      assert gone == gone[..n] + [gone[n]];
    }
  }

  lemma {:induction false} OnceEach(runs: seq<RunDir>, r: RunDir)
    requires DistinctNames(runs)
    ensures multiset(runs)[r] <= 1
  {
    if runs != [] {
      var n := |runs| - 1;
      OnceEach(runs[..n], r);
      assert multiset(runs) == multiset(runs[..n]) + multiset{runs[n]} by { assert runs == runs[..n] + [runs[n]]; }
      assert runs[n] !in runs[..n];
    }
  }

  /** On disk: min(n, count) candidates are left, the latest ones, and nothing but candidates is gone. */
  lemma KeepRecentLeavesLatest(runs: seq<RunDir>, current: string, keep: nat)
    requires DistinctNames(runs)
    ensures var cs := Candidates(runs, current);
            var gone := ToRemove(cs, AllButLatest(keep));
            var left := WithoutAll(runs, gone);
            && |Candidates(left, current)| == (if keep < |cs| then keep else |cs|)
            && (forall k, g :: k in Candidates(left, current) && g in gone ==> k.started >= g.started)
            && (forall r :: r in runs && !Candidate(r, current) ==> r in left)
  {
    hide Candidates, Candidate, SortRecent, WithoutAll, DistinctNames, ToRemove;
    var cs := Candidates(runs, current);
    var sorted, gone := SortRecent(cs), ToRemove(cs, AllButLatest(keep));
    var left := WithoutAll(runs, gone);
    KeepRecentKeepsLatest(runs, current, keep);
    var kept := sorted[..|cs| - |gone|];
    assert multiset(kept) + multiset(gone) == multiset(cs) by { assert multiset(kept + gone) == multiset(cs); }
    forall r ensures multiset(Candidates(left, current))[r] == multiset(kept)[r] {
      LeftOrGone(runs, current, gone, r);
    }
    assert multiset(Candidates(left, current)) == multiset(kept);
    SameSize(Candidates(left, current), kept);
    forall k | k in Candidates(left, current) ensures k in kept {
      assert k in multiset(kept);
    }
    forall r | r in runs && !Candidate(r, current) ensures r in left {
      CleanRemovesOnlyChosen(runs, current, AllButLatest(keep), r);
    }
  }

  lemma SameSize(a: seq<RunDir>, b: seq<RunDir>)
    requires multiset(a) == multiset(b)
    ensures |a| == |b|
  {
    assert |multiset(a)| == |a| && |multiset(b)| == |b|;
  }

  /** Every candidate that was there is left or gone, and not both. */
  lemma LeftOrGone(runs: seq<RunDir>, current: string, gone: seq<RunDir>, r: RunDir)
    requires DistinctNames(runs) && multiset(gone) <= multiset(Candidates(runs, current))
    ensures multiset(Candidates(WithoutAll(runs, gone), current))[r] ==
            multiset(Candidates(runs, current))[r] - multiset(gone)[r]
  {
    hide Candidates, Candidate, WithoutAll;
    CandidatesCount(runs, current, r);
    CandidatesCount(WithoutAll(runs, gone), current, r);
    WithoutAllCount(runs, gone, r);
    OnceEach(runs, r);
    if Named(gone, r.name) && r in runs {
      var g :| g in gone && g.name == r.name;
      assert g in multiset(Candidates(runs, current));
      CandidatesMembers(runs, current, g);
      assert g == r;
      assert multiset(gone)[r] >= 1 && multiset(runs)[r] == 1;
    }
  }

  lemma SweptNotUnfinished(agents: seq<AgentFile>)
    requires AgentsSettable(agents)
    ensures !HasUnfinished(SweepAgents(agents))
  {
    hide Unfinished, Settable, SweepAgent;
    forall i | 0 <= i < |agents| ensures !Unfinished(SweepAgents(agents)[i]) {
      if Unfinished(agents[i]) { SweptAgentReads(agents[i]); } else { FinishedStays(agents[i]); }
    }
  }

  /** Sweeping and then removing all but the current run leaves exactly the current, live and non-run entries. */
  lemma SweepThenClean(runs: seq<RunDir>, current: string, i: nat)
    requires DistinctNames(runs) && AllSettable(runs, current) && i < |runs|
    ensures var swept := SweepRuns(runs, current);
            swept[i] in WithoutAll(swept, ToRemove(Candidates(swept, current), Every))
            <==> runs[i].name == current || runs[i].live || runs[i].isLink || !runs[i].isDir
                 || !IsRunIdShaped(runs[i].name)
  {
    hide IsRunIdShaped, AgentsSettable, SweepAgents, HasUnfinished, WithoutAll, Candidates;
    var swept := SweepRuns(runs, current);
    assert forall k :: 0 <= k < |runs| ==> swept[k].name == runs[k].name;
    CleanRemovesOnlyChosen(swept, current, Every, swept[i]);
    CandidatesMembers(swept, current, swept[i]);
    if Sweepable(runs[i], current) { SweptNotUnfinished(runs[i].agents); }
  }

  // ---------- swept agents cannot be continued ----------

  /** An agent the sweep found unfinished, rewritten or not, is never adopted by a process that joins its run. */
  lemma SweptNeverAdoptable(a: AgentFile, dirs: seq<Agents.AgentDir>, id: string)
    requires Unfinished(a)
    requires var k := Agents.DirIndex(dirs, id); k < |dirs| ==> dirs[k].brief == SweepAgent(a).brief
    ensures Agents.Adoptable(dirs, id).Err?
  {
    hide FrontMatter.SetField, FrontMatter.Get, Unfinished, SweepAgent, AgentIds.ValidAgentId, Settable;
    SweptText(a);
    var k := Agents.DirIndex(dirs, id);
    if k < |dirs| && dirs[k].brief.Some? {
      NotContinuableToken(FrontMatter.Get(SweepAgent(a).brief.value, FrontMatter.STATE).value);
    }
  }

  lemma SweptText(a: AgentFile)
    requires Unfinished(a)
    ensures var brief := SweepAgent(a).brief;
            && brief.Some? && FrontMatter.Get(brief.value, FrontMatter.STATE).Some?
            && var s := FrontMatter.Get(brief.value, FrontMatter.STATE).value; s == INTERRUPTED || !IsTerminalState(s)
  {
    hide FrontMatter.SetField, FrontMatter.Get, FrontMatter.HasKey, IsTerminalState;
    SweptAgentReads(a);
  }

  /** The archive and the registry agree on which recorded states are final. */
  lemma FinalTokens(token: string)
    ensures IsTerminalState(token) <==>
            AgentIds.FromDiskStr(token).Some? && AgentIds.IsTerminal(AgentIds.FromDiskStr(token).value)
  {
  }

  lemma NotContinuableToken(s: string)
    requires s == INTERRUPTED || !IsTerminalState(s)
    ensures var state := AgentIds.FromDiskStr(s);
            state.None? || !AgentIds.IsTerminal(state.value) || state.value == AgentIds.Interrupted
  {
  }

  // ---------- run names ----------

  predicate NoDash(s: string) { '-' !in s }

  lemma {:induction false} FindDash(a: string, b: string)
    requires NoDash(a)
    ensures Find(a + "-" + b, "-") == |a|
  {
    var s := a + "-" + b;
    if a == "" {
      assert s == "-" + b;
    } else {
      FindDash(a[1..], b);
      assert s[1..] == a[1..] + "-" + b;
      assert s[0] == a[0] && a[0] in a;
    }
  }

  /** Eight digits, six digits and eight hex digits, joined by dashes. */
  predicate RunName(name: string, d: string, t: string, h: string) {
    && name == d + "-" + t + "-" + h && |d| == 8 && |t| == 6 && |h| == 8
    && AllOf(d, Decimal.IsDigit) && AllOf(t, Decimal.IsDigit) && AllOf(h, IsHex)
  }

  lemma ShapedParts(name: string) returns (d: string, t: string, h: string)
    requires IsRunIdShaped(name)
    ensures RunName(name, d, t, h)
  {
    hide Find, AllOf;
    var i := Find(name, "-");
    var rest := name[i + 1..];
    var j := Find(rest, "-");
    d, t, h := name[..i], rest[..j], rest[j + 1..];
    CutAtDash(name, i);
    CutAtDash(rest, j);
    assert d + "-" + (t + "-" + h) == d + "-" + t + "-" + h;
  }

  lemma CutAtDash(s: string, i: nat)
    requires i < |s| && "-" <= s[i..]
    ensures s == s[..i] + "-" + s[i + 1..]
  {
    assert s[i..][0] == '-';
  }

  lemma PartsShaped(name: string, d: string, t: string, h: string)
    requires RunName(name, d, t, h)
    ensures IsRunIdShaped(name)
  {
    hide Find;
    var rest := t + "-" + h;
    assert name == d + "-" + rest;
    assert NoDash(d) && NoDash(t);
    FindDash(d, rest);
    FindDash(t, h);
    assert name[..8] == d && name[9..] == rest;
    assert rest[..6] == t && rest[7..] == h;
  }

  /** A run name has that shape, and nothing else passes for one. */
  lemma RunIdShape(name: string)
    ensures IsRunIdShaped(name) <==> exists d, t, h :: RunName(name, d, t, h)
  {
    hide IsRunIdShaped, RunName;
    if IsRunIdShaped(name) {
      var d, t, h := ShapedParts(name);
    }
    if d, t, h :| RunName(name, d, t, h) {
      PartsShaped(name, d, t, h);
    }
  }
}
