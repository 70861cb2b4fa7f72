/** What cleaning by age removes (src/archive.rs, src/mode/tui.rs). */
module CleanByAge {
  import opened Text
  import opened Archive

  const TWO_TO_63: nat := 0x8000_0000_0000_0000

  /** A cutoff lies that many days back exactly for counts that a signed 64-bit number holds; others wrap around. */
  lemma CutoffIsDaysBack(days: u64, now: int, calendar: Calendar)
    requires Cutoff(days, now, calendar).Some? && calendar.day > 0
    ensures Cutoff(days, now, calendar) == Some(now - days * calendar.day) <==> days < TWO_TO_63
    ensures days >= TWO_TO_63 ==> Cutoff(days, now, calendar).value > now
  {
    var i := AsI64(days);
    if days >= TWO_TO_63 {
      assert i < 0 && i * calendar.day < 0;
      assert days * calendar.day >= 0;
    }
  }

  // ---------- what goes ----------

  /** Cleaning by age takes this run off the disk. */
  predicate Removed(runs: seq<RunDir>, current: string, days: u64, now: int, calendar: Calendar, r: RunDir)
    requires Cutoff(days, now, calendar).Some?
  {
    var choice := StartedBy(Cutoff(days, now, calendar).value);
    r in runs && r !in WithoutAll(runs, ToRemove(Candidates(runs, current), choice))
  }

  /** Below 2^63 days exactly the candidates at least that old go. */
  lemma OldOnesGo(runs: seq<RunDir>, current: string, days: u64, now: int, calendar: Calendar, r: RunDir)
    requires DistinctNames(runs) && r in runs && days < TWO_TO_63 && Cutoff(days, now, calendar).Some?
    ensures Removed(runs, current, days, now, calendar, r) <==>
            Candidate(r, current) && now - r.started >= days * calendar.day
  {
    hide Candidate, WithoutAll, Candidates, ToRemove, DistinctNames;
    OlderThanRemovesOld(runs, current, Cutoff(days, now, calendar).value, r);
  }

  /** From there on the day count wraps around, and every candidate already started goes, however young. */
  lemma StartedOnesGo(runs: seq<RunDir>, current: string, days: u64, now: int, calendar: Calendar, r: RunDir)
    requires DistinctNames(runs) && r in runs && days >= TWO_TO_63 && Cutoff(days, now, calendar).Some?
    requires Candidate(r, current) && r.started <= now
    ensures Removed(runs, current, days, now, calendar, r)
  {
    hide Candidate, WithoutAll, Candidates, ToRemove, DistinctNames, Cutoff;
    WrappedIsLater(days, now, calendar);
    OlderThanRemovesOld(runs, current, Cutoff(days, now, calendar).value, r);
  }

  lemma WrappedIsLater(days: u64, now: int, calendar: Calendar)
    requires days >= TWO_TO_63 && Cutoff(days, now, calendar).Some?
    ensures Cutoff(days, now, calendar).value >= now
  {
    var i := AsI64(days);
    assert i < 0 && i * calendar.day <= 0;
  }

  /** No archive loses a candidate younger than the days asked for. */
  ghost predicate OnlyOldGo(days: u64, now: int, calendar: Calendar)
    requires Cutoff(days, now, calendar).Some?
  {
    forall runs, current, r ::
      DistinctNames(runs) && Removed(runs, current, days, now, calendar, r) ==> now - r.started >= days * calendar.day
  }

  /** That holds exactly for day counts below 2^63. */
  lemma OnlyOldGoExactly(days: u64, now: int, calendar: Calendar)
    requires Cutoff(days, now, calendar).Some? && calendar.day > 0
    ensures OnlyOldGo(days, now, calendar) <==> days < TWO_TO_63
  {
    hide Removed, DistinctNames, Cutoff, Candidate;
    if days < TWO_TO_63 {
      forall runs, current, r | DistinctNames(runs) && Removed(runs, current, days, now, calendar, r)
        ensures now - r.started >= days * calendar.day
      {
        assert r in runs by { RemovedWasThere(runs, current, days, now, calendar, r); }
        OldOnesGo(runs, current, days, now, calendar, r);
      }
    } else {
      var r := FreshRun(now);
      FreshRunGoes(r, days, now, calendar);
      assert DistinctNames([r]) by { OneName(r); }
      assert days * calendar.day > 0;
      assert Removed([r], "", days, now, calendar, r);
    }
  }

  lemma RemovedWasThere(runs: seq<RunDir>, current: string, days: u64, now: int, calendar: Calendar, r: RunDir)
    requires Cutoff(days, now, calendar).Some? && Removed(runs, current, days, now, calendar, r)
    ensures r in runs
  {
  }

  lemma OneName(r: RunDir)
    ensures DistinctNames([r])
  {
  }

  // ---------- a run started this moment ----------

  const EIGHT: string := "00000000"
  const SIX: string := "000000"

  function FreshRun(now: int): RunDir {
    RunDir(EIGHT + "-" + SIX + "-" + EIGHT, true, false, false, now, 0, [])
  }

  lemma FreshRunIsCandidate(now: int)
    ensures Candidate(FreshRun(now), "")
  {
    hide IsRunIdShaped;
    ZerosAreDigits();
    PartsShaped(FreshRun(now).name, EIGHT, SIX, EIGHT);
  }

  lemma ZerosAreDigits()
    ensures RunName(EIGHT + "-" + SIX + "-" + EIGHT, EIGHT, SIX, EIGHT)
  {
  }

  lemma FreshRunGoes(r: RunDir, days: u64, now: int, calendar: Calendar)
    requires r == FreshRun(now) && days >= TWO_TO_63 && Cutoff(days, now, calendar).Some?
    ensures Removed([r], "", days, now, calendar, r)
  {
    hide Removed, Candidate, Cutoff, DistinctNames;
    FreshRunIsCandidate(now);
    OneName(r);
    StartedOnesGo([r], "", days, now, calendar, r);
  }

  /** Asked for the largest number of days, the cutoff is a day ahead, and a run started this moment goes. */
  lemma LargestCountRemovesAll(now: int, calendar: Calendar)
    requires OnCalendar(calendar, now + calendar.day)
    ensures Cutoff(0xFFFF_FFFF_FFFF_FFFF, now, calendar) == Some(now + calendar.day)
    ensures Removed([FreshRun(now)], "", 0xFFFF_FFFF_FFFF_FFFF, now, calendar, FreshRun(now))
  {
    hide Removed, FreshRun;
    assert AsI64(0xFFFF_FFFF_FFFF_FFFF) == -1;
    FreshRunGoes(FreshRun(now), 0xFFFF_FFFF_FFFF_FFFF, now, calendar);
  }
}
