/** What a clean reports, and what it can touch at all (src/archive.rs). */
module CleanReports {
  import opened Text
  import opened Sequences
  import opened Archive
  import AgentIds
  import FrontMatter
  import CleanByAge

  // ---------- which runs may go ----------

  /** An agent directory whose brief records a state that is not one of the five final ones. */
  predicate StillGoing(a: AgentFile) {
    && a.isDir && a.brief.Some? && FrontMatter.Get(a.brief.value, "state").Some?
    && FrontMatter.Get(a.brief.value, "state").value !in ["done", "failed", "stopped", "limit_reached", "interrupted"]
  }

  lemma UnfinishedExactly(a: AgentFile)
    ensures Unfinished(a) <==> StillGoing(a)
  {
    hide FrontMatter.Get;
  }

  /** A run may go when it is a real directory with a run's name, not the current one, dead, its agents all ended. */
  lemma CandidateExactly(r: RunDir, current: string)
    ensures Candidate(r, current) <==>
            && r.name != current && r.isDir && !r.isLink && !r.live
            && (exists d, t, h :: RunName(r.name, d, t, h))
            && forall i :: 0 <= i < |r.agents| ==> !StillGoing(r.agents[i])
  {
    hide IsRunIdShaped, Unfinished, StillGoing, RunName;
    RunIdShape(r.name);
    forall i | 0 <= i < |r.agents| ensures Unfinished(r.agents[i]) <==> StillGoing(r.agents[i]) {
      UnfinishedExactly(r.agents[i]);
    }
  }

  // ---------- the sweep ----------

  /** A sweep leaves every run that is current, live or no directory as it is, and of any other the ended agents. */
  lemma SweepLeaves(runs: seq<RunDir>, current: string, i: nat)
    requires i < |runs|
    ensures var before, after := runs[i], SweepRuns(runs, current)[i];
            && after == before.(agents := after.agents) && |after.agents| == |before.agents|
            && (before.name == current || before.live || !before.isDir ==> after == before)
            && (before.name != current && !before.live && before.isDir ==>
                  forall j :: 0 <= j < |before.agents| ==>
                    after.agents[j] ==
                    if StillGoing(before.agents[j]) then SetAgentState(before.agents[j], "interrupted")
                    else before.agents[j])
  {
    hide Unfinished, StillGoing, FrontMatter.SetField;
    forall a: AgentFile ensures Unfinished(a) <==> StillGoing(a) { UnfinishedExactly(a); }
  }

  lemma {:induction false} GoingCount(agents: seq<AgentFile>)
    ensures CountUnfinished(agents) == |Filter(agents, (a: AgentFile) => StillGoing(a))|
  {
    hide Unfinished, StillGoing;
    if agents != [] {
      GoingCount(agents[..|agents| - 1]);
      UnfinishedExactly(agents[|agents| - 1]);
    }
  }

  /** The agents still going in the runs a sweep looks at. */
  function GoingIn(runs: seq<RunDir>, current: string): nat {
    if runs == [] then 0 else
      var r := runs[|runs| - 1];
      GoingIn(runs[..|runs| - 1], current)
      + if r.name != current && !r.live && r.isDir then |Filter(r.agents, (a: AgentFile) => StillGoing(a))| else 0
  }

  /** What a sweep returns is their number. */
  lemma {:induction false} SweptCount(runs: seq<RunDir>, current: string)
    ensures CountSwept(runs, current) == GoingIn(runs, current)
  {
    hide StillGoing, CountUnfinished;
    if runs != [] {
      SweptCount(runs[..|runs| - 1], current);
      GoingCount(runs[|runs| - 1].agents);
    }
  }

  // ---------- the report ----------

  /** The runs passed over as live: like the candidates, but with a live process or an agent still going. */
  predicate Skipped(r: RunDir, current: string) {
    && r.name != current && r.isDir && !r.isLink && IsRunIdShaped(r.name)
    && (r.live || exists i :: 0 <= i < |r.agents| && StillGoing(r.agents[i]))
  }

  function NamesOf(runs: seq<RunDir>): (r: seq<string>)
    ensures |r| == |runs|
  {
    seq(|runs|, i requires 0 <= i < |runs| => runs[i].name)
  }

  lemma {:induction false} SkippedExactly(runs: seq<RunDir>, current: string)
    ensures SkippedLive(runs, current) == NamesOf(Filter(runs, (r: RunDir) => Skipped(r, current)))
  {
    hide Skipped, Considered, Protected;
    if runs != [] {
      var init, r := runs[..|runs| - 1], runs[|runs| - 1];
      SkippedExactly(init, current);
      OneSkipped(r, current);
      var names := Filter(init, (r: RunDir) => Skipped(r, current));
      assert NamesOf(names + [r]) == NamesOf(names) + [r.name] && names + [] == names;
    }
  }

  lemma OneSkipped(r: RunDir, current: string)
    ensures Considered(r, current) && Protected(r) <==> Skipped(r, current)
  {
    hide IsRunIdShaped, Unfinished, StillGoing;
    forall i | 0 <= i < |r.agents| ensures Unfinished(r.agents[i]) <==> StillGoing(r.agents[i]) {
      UnfinishedExactly(r.agents[i]);
    }
  }

  lemma {:induction false} BytesConcat(a: seq<RunDir>, b: seq<RunDir>)
    ensures TotalBytes(a + b) == TotalBytes(a) + TotalBytes(b)
  {
    if b == [] {
      assert a + b == a;
    } else {
      BytesConcat(a, b[..|b| - 1]);
      assert (a + b)[..|a + b| - 1] == a + b[..|b| - 1];
    }
  }

  lemma {:induction false} BytesOfSame(a: seq<RunDir>, b: seq<RunDir>)
    requires multiset(a) == multiset(b)
    ensures TotalBytes(a) == TotalBytes(b)
  {
    assert |multiset(a)| == |multiset(b)|;
    if a != [] {
      var n := |a| - 1;
      var r := a[n];
      assert a == a[..n] + [r];
      assert r in multiset(b);
      var i :| 0 <= i < |b| && b[i] == r;
      var rest := b[..i] + b[i + 1..];
      assert b == b[..i] + [r] + b[i + 1..];
      assert multiset(a[..n]) == multiset(a) - multiset{r};
      assert multiset(rest) == multiset(b) - multiset{r};
      BytesOfSame(a[..n], rest);
      BytesConcat(b[..i] + [r], b[i + 1..]);
      BytesConcat(b[..i], [r]);
      BytesConcat(b[..i], b[i + 1..]);
      assert [r][..0] == [];
    }
  }

  lemma {:induction false} OldCount(cs: seq<RunDir>, cutoff: int, r: RunDir)
    ensures multiset(OldOnes(cs, cutoff))[r] <= multiset(cs)[r]
  {
    if cs != [] {
      var n := |cs| - 1;
      OldCount(cs[..n], cutoff, r);
      assert multiset(cs) == multiset(cs[..n]) + multiset{cs[n]} by { assert cs == cs[..n] + [cs[n]]; }
    }
  }

  /** What goes are some of the candidates, none more often than it is there. */
  lemma GoneCount(cs: seq<RunDir>, choice: Choice, r: RunDir)
    ensures multiset(ToRemove(cs, choice))[r] <= multiset(cs)[r]
  {
    hide OldOnes, SortRecent;
    match choice
    case Every =>
    case StartedBy(cutoff) => OldCount(cs, cutoff, r);
    case AllButLatest(keep) =>
      SortRecentSorts(cs);
      var s := SortRecent(cs);
      if keep <= |s| {
        assert s == s[..keep] + s[keep..];
        assert multiset(s) == multiset(s[..keep]) + multiset(s[keep..]);
      }
  }

  lemma LeftPlusGone(runs: seq<RunDir>, current: string, choice: Choice, r: RunDir)
    requires DistinctNames(runs)
    ensures var gone := ToRemove(Candidates(runs, current), choice);
            multiset(WithoutAll(runs, gone))[r] + multiset(gone)[r] == multiset(runs)[r]
  {
    hide ToRemove, Candidates, WithoutAll, Candidate, DistinctNames;
    var gone := ToRemove(Candidates(runs, current), choice);
    GoneCount(Candidates(runs, current), choice, r);
    CandidatesCount(runs, current, r);
    WithoutAllCount(runs, gone, r);
    OnceEach(runs, r);
    if g :| g in gone && g.name == r.name {
      GoneCount(Candidates(runs, current), choice, g);
      CandidatesCount(runs, current, g);
      assert g in multiset(gone);
      assert g in multiset(runs);
      if r in runs { SameNameSame(runs, g, r); }
    } else {
      assert r !in gone;
    }
  }

  lemma SameNameSame(runs: seq<RunDir>, a: RunDir, b: RunDir)
    requires DistinctNames(runs) && a in runs && b in runs && a.name == b.name
    ensures a == b
  {
    var i :| 0 <= i < |runs| && runs[i] == a;
    var j :| 0 <= j < |runs| && runs[j] == b;
  }

  /** What is freed and what is left add up: sizes and counts before a clean are those after it and those reported. */
  lemma FreedAndLeft(runs: seq<RunDir>, current: string, choice: Choice)
    requires DistinctNames(runs)
    ensures var gone := ToRemove(Candidates(runs, current), choice);
            var left := WithoutAll(runs, gone);
            TotalBytes(runs) == TotalBytes(left) + TotalBytes(gone) && |runs| == |left| + |gone|
  {
    hide ToRemove, Candidates, WithoutAll, DistinctNames, TotalBytes;
    var gone := ToRemove(Candidates(runs, current), choice);
    var left := WithoutAll(runs, gone);
    forall r ensures multiset(left + gone)[r] == multiset(runs)[r] {
      LeftPlusGone(runs, current, choice, r);
    }
    assert multiset(left + gone) == multiset(runs);
    BytesOfSame(left + gone, runs);
    BytesConcat(left, gone);
    SameSize(left + gone, runs);
  }

  /** The bytes of a run list are the sum over its runs, one by one. */
  lemma {:induction false} BytesOneByOne(runs: seq<RunDir>, i: nat)
    requires i < |runs|
    ensures TotalBytes(runs) == TotalBytes(runs[..i]) + runs[i].bytes + TotalBytes(runs[i + 1..])
    ensures TotalBytes([]) == 0
  {
    assert runs == runs[..i] + [runs[i]] + runs[i + 1..];
    BytesConcat(runs[..i] + [runs[i]], runs[i + 1..]);
    BytesConcat(runs[..i], [runs[i]]);
    assert [runs[i]][..0] == [];
  }

  // ---------- what each mode leaves ----------

  /** The archive after a clean in a mode, when its date is on the calendar. */
  function Cleaned(
      runs: seq<RunDir>, current: string, mode: CleanMode, now: int, calendar: Calendar): Option<seq<RunDir>>
  {
    var choice := ChoiceOf(mode, now, calendar);
    if choice.None? then None else Some(WithoutAll(runs, ToRemove(Candidates(runs, current), choice.value)))
  }

  /** Cleaning all but the current run leaves no candidate, and everything else. */
  lemma AllButCurrentLeaves(runs: seq<RunDir>, current: string, now: int, calendar: Calendar, r: RunDir)
    requires DistinctNames(runs) && r in runs
    ensures var left := Cleaned(runs, current, AllButCurrent, now, calendar);
            left.Some? && (r in left.value <==> !Candidate(r, current))
  {
    hide Candidate, WithoutAll, Candidates, DistinctNames;
    CleanRemovesOnlyChosen(runs, current, Every, r);
    CandidatesMembers(runs, current, r);
  }

  /** Keeping `n` leaves min(n, count) candidates, none of which started before one that went. */
  lemma KeepLeaves(runs: seq<RunDir>, current: string, keep: nat, now: int, calendar: Calendar)
    requires DistinctNames(runs)
    ensures var left := Cleaned(runs, current, KeepRecent(keep), now, calendar);
            var before := |Candidates(runs, current)|;
            && left.Some? && |Candidates(left.value, current)| == (if keep < before then keep else before)
            && forall k, g :: k in Candidates(left.value, current) && g in runs && g !in left.value ==>
                 k.started >= g.started
  {
    hide Candidates, WithoutAll, DistinctNames, ToRemove, Candidate;
    KeepRecentLeavesLatest(runs, current, keep);
    var gone := ToRemove(Candidates(runs, current), AllButLatest(keep));
    forall g | g in runs && g !in WithoutAll(runs, gone) ensures g in gone {
      CleanRemovesOnlyChosen(runs, current, AllButLatest(keep), g);
    }
  }

  /** Below 2^63 days, cleaning by age takes exactly the candidates at least that old. */
  lemma OlderLeaves(runs: seq<RunDir>, current: string, days: u64, now: int, calendar: Calendar, r: RunDir)
    requires DistinctNames(runs) && r in runs && days < 0x8000_0000_0000_0000
    ensures var left := Cleaned(runs, current, OlderThanDays(days), now, calendar);
            && (left.Some? <==> OnCalendar(calendar, now - days * calendar.day))
            && (left.Some? ==>
                  (r in left.value <==> !(Candidate(r, current) && now - r.started >= days * calendar.day)))
  {
    hide Candidate, WithoutAll, Candidates, DistinctNames, ToRemove;
    if Cutoff(days, now, calendar).Some? { CleanByAge.OldOnesGo(runs, current, days, now, calendar, r); }
  }
}
