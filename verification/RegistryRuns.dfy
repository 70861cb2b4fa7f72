/** Every run of the agent registry: fresh ids, live limits, shutdown and the report outbox. */
module RegistryRuns {
  import opened Text
  import opened AgentIds
  import opened Agents

  /** One call, or one act of the outside world: another process adding a directory, or a child writing its files. */
  datatype Event =
    | Reserve(now: nat, createFails: bool)
    | Adopt(id: string, now: nat)
    | SetPid(id: string, pid: nat)
    | SetState(id: string, state: AgentState, now: nat)
    | Reactivate(id: string)
    | KillAll(now: nat)
    | PushEntry(text: string)
    | TakeReports
    | AddDir(dir: AgentDir)
    | WriteFiles(index: nat, brief: Option<string>, report: Option<string>)

  function Step(r: Registry, maxLive: nat, e: Event): Registry {
    match e
    case Reserve(now, createFails) => ReserveStep(r, maxLive, now, createFails).0
    case Adopt(id, now) => AdoptStep(r, id, now).0
    case SetPid(id, pid) => SetPidStep(r, id, pid)
    case SetState(id, state, now) => SetStateStep(r, id, state, now)
    case Reactivate(id) => ReactivateStep(r, id).0
    case KillAll(now) => KillAllStep(r, now)
    case PushEntry(text) => r.(reports := r.reports + [text])
    case TakeReports => r.(reports := [])
    case AddDir(dir) => r.(dirs := r.dirs + [dir])
    case WriteFiles(i, brief, report) =>
      if i < |r.dirs| then r.(dirs := r.dirs[i := AgentDir(r.dirs[i].name, brief, report)]) else r
  }

  function Start(dirs: seq<AgentDir>): Registry { Registry(0, [], false, false, [], dirs) }

  function After(dirs: seq<AgentDir>, maxLive: nat, run: seq<Event>): Registry {
    if run == [] then Start(dirs)
    else Step(After(dirs, maxLive, run[..|run| - 1]), maxLive, run[|run| - 1])
  }

  // ---------- fresh ids ----------

  /** No other process adds a directory with a valid id once the run directory has been scanned. */
  predicate Undisturbed(r: Registry, e: Event) {
    e.AddDir? ==> !r.seeded || ValidAgentId(e.dir.name).None?
  }

  predicate UndisturbedRun(dirs: seq<AgentDir>, maxLive: nat, run: seq<Event>) {
    forall k :: 0 <= k < |run| ==> Undisturbed(After(dirs, maxLive, run[..k]), run[k])
  }

  predicate Covered(counter: nat, name: string) {
    ValidAgentId(name).Some? ==> ValidAgentId(name).value <= counter
  }

  predicate DirsCovered(counter: nat, dirs: seq<AgentDir>) {
    forall i :: 0 <= i < |dirs| ==> Covered(counter, dirs[i].name)
  }

  predicate DistinctIds(entries: seq<AgentEntry>) {
    forall i, j :: 0 <= i < j < |entries| ==> entries[i].id != entries[j].id
  }

  predicate EntriesCovered(counter: nat, entries: seq<AgentEntry>) {
    forall i :: 0 <= i < |entries| ==> ValidAgentId(entries[i].id).Some? && ValidAgentId(entries[i].id).value <= counter
  }

  /** The counter is past every tracked id and, once seeded, past every valid id on disk. */
  predicate Inv(r: Registry) {
    && DistinctIds(r.entries) && EntriesCovered(r.counter, r.entries)
    && (r.seeded ==> DirsCovered(r.counter, r.dirs))
  }

  lemma {:induction false} LargestCovers(dirs: seq<AgentDir>)
    ensures DirsCovered(LargestId(dirs), dirs)
  {
    hide ValidAgentId;
    if dirs != [] { LargestCovers(dirs[..|dirs| - 1]); }
  }

  lemma SeedCovers(r: Registry)
    requires Inv(r)
    ensures Inv(Seed(r)) && Seed(r).seeded
    ensures Seed(r).counter >= r.counter && Seed(r).entries == r.entries && Seed(r).dirs == r.dirs
  {
    hide ValidAgentId;
    LargestCovers(r.dirs);
  }

  /** A reserved id is new: not tracked, not on disk, and larger than every id before it. */
  lemma ReservedIsFresh(r: Registry, maxLive: nat, now: nat, createFails: bool)
    requires Inv(r) && ReserveStep(r, maxLive, now, createFails).0.counter < ID_LIMIT
    ensures var (r', out) := ReserveStep(r, maxLive, now, createFails);
            out.Ok? ==>
              && out.value == AgentId(r'.counter) && ValidAgentId(out.value) == Some(r'.counter)
              && r'.counter > r.counter
              && (forall i :: 0 <= i < |r.entries| ==> r.entries[i].id != out.value)
              && (forall i :: 0 <= i < |r.dirs| ==> r.dirs[i].name != out.value)
  {
    hide ValidAgentId, AgentId, LiveCount;
    SeedCovers(r);
    MintedIsValid(Seed(r).counter + 1);
  }

  lemma ReserveKeepsInv(r: Registry, maxLive: nat, now: nat, createFails: bool)
    requires Inv(r) && ReserveStep(r, maxLive, now, createFails).0.counter < ID_LIMIT
    ensures Inv(ReserveStep(r, maxLive, now, createFails).0)
  {
    hide ValidAgentId, AgentId, LiveCount;
    SeedCovers(r);
    ReservedIsFresh(r, maxLive, now, createFails);
    MintedIsValid(Seed(r).counter + 1);
  }

  lemma AdoptableIsValid(dirs: seq<AgentDir>, id: string)
    requires Adoptable(dirs, id).Ok?
    ensures ValidAgentId(id).Some? && IsTerminal(Adoptable(dirs, id).value) && Adoptable(dirs, id).value != Interrupted
  {
    hide ValidAgentId, DiskState;
  }

  lemma AdoptKeepsInv(r: Registry, id: string, now: nat)
    requires Inv(r)
    ensures Inv(AdoptStep(r, id, now).0)
  {
    hide ValidAgentId, Adoptable, LargestId, DirsCovered, EntriesCovered;
    if IndexOf(r.entries, id) == |r.entries| && Adoptable(r.dirs, id).Ok? {
      AdoptableIsValid(r.dirs, id);
      LargestCovers(r.dirs);
      var r' := AdoptStep(r, id, now).0;
      CoveredMore(if r.seeded then r.counter else LargestId(r.dirs), r'.counter, r.dirs);
      EntryCovered(r.counter, r'.counter, r.entries, r'.entries[|r.entries|]);
    }
  }

  lemma CoveredMore(c: nat, d: nat, dirs: seq<AgentDir>)
    requires DirsCovered(c, dirs) && c <= d
    ensures DirsCovered(d, dirs)
  {
    hide ValidAgentId;
  }

  lemma EntryCovered(c: nat, d: nat, entries: seq<AgentEntry>, e: AgentEntry)
    requires EntriesCovered(c, entries) && c <= d
    requires ValidAgentId(e.id).Some? && ValidAgentId(e.id).value <= d
    ensures EntriesCovered(d, entries + [e])
  {
    hide ValidAgentId;
  }

  lemma SameNames(r: Registry, id: string, state: AgentState)
    ensures |RecordState(r.dirs, id, state)| == |r.dirs|
    ensures forall i :: 0 <= i < |r.dirs| ==> RecordState(r.dirs, id, state)[i].name == r.dirs[i].name
  {
  }

  lemma StepKeepsInv(r: Registry, maxLive: nat, e: Event)
    requires Inv(r) && Undisturbed(r, e) && Step(r, maxLive, e).counter < ID_LIMIT
    ensures Inv(Step(r, maxLive, e))
  {
    hide ValidAgentId, ReserveStep, AdoptStep, RecordState;
    match e
    case Reserve(now, createFails) => ReserveKeepsInv(r, maxLive, now, createFails);
    case Adopt(id, now) => AdoptKeepsInv(r, id, now);
    case SetState(id, state, now) => SameNames(r, id, state);
    case _ =>
  }

  lemma CounterGrows(r: Registry, maxLive: nat, e: Event)
    ensures Step(r, maxLive, e).counter >= r.counter
  {
    hide ValidAgentId, LargestId, Adoptable;
  }

  lemma {:induction false} RunKeepsInv(dirs: seq<AgentDir>, maxLive: nat, run: seq<Event>)
    requires UndisturbedRun(dirs, maxLive, run) && After(dirs, maxLive, run).counter < ID_LIMIT
    ensures Inv(After(dirs, maxLive, run))
  {
    hide Inv, Undisturbed, Step;
    if run == [] {
      StartInv(dirs);
    } else {
      var init, e := run[..|run| - 1], run[|run| - 1];
      PrefixUndisturbed(dirs, maxLive, run, |run| - 1);
      CounterGrows(After(dirs, maxLive, init), maxLive, e);
      RunKeepsInv(dirs, maxLive, init);
      StepKeepsInv(After(dirs, maxLive, init), maxLive, e);
    }
  }

  lemma StartInv(dirs: seq<AgentDir>)
    ensures Inv(Start(dirs))
  {
  }

  lemma PrefixUndisturbed(dirs: seq<AgentDir>, maxLive: nat, run: seq<Event>, k: nat)
    requires UndisturbedRun(dirs, maxLive, run) && k <= |run|
    ensures UndisturbedRun(dirs, maxLive, run[..k])
  {
    hide Undisturbed, After;
    forall j | 0 <= j < k ensures Undisturbed(After(dirs, maxLive, run[..k][..j]), run[..k][j]) {
      assert run[..k][..j] == run[..j];
    }
  }

  lemma {:induction false} CounterGrowsOverRun(dirs: seq<AgentDir>, maxLive: nat, run: seq<Event>, k: nat)
    requires k <= |run|
    ensures After(dirs, maxLive, run[..k]).counter <= After(dirs, maxLive, run).counter
  {
    hide Step;
    if k < |run| {
      var init := run[..|run| - 1];
      CounterGrowsOverRun(dirs, maxLive, init, k);
      assert init[..k] == run[..k];
      CounterGrows(After(dirs, maxLive, init), maxLive, run[|run| - 1]);
    } else {
      assert run[..k] == run;
    }
  }

  /** What the reservation at position `k` of the run gave. */
  function ReservedAt(dirs: seq<AgentDir>, maxLive: nat, run: seq<Event>, k: nat): Option<string>
    requires k < |run|
  {
    if !run[k].Reserve? then None else
      var out := ReserveStep(After(dirs, maxLive, run[..k]), maxLive, run[k].now, run[k].createFails).1;
      if out.Ok? then Some(out.value) else None
  }

  /**
   * Id freshness: every reserved id is `a{n}` for a number above all earlier ones, is tracked by no entry and names no
   * directory at that moment; tracked ids stay distinct.
   */
  lemma IdsAreFresh(dirs: seq<AgentDir>, maxLive: nat, run: seq<Event>, k: nat)
    requires UndisturbedRun(dirs, maxLive, run) && After(dirs, maxLive, run).counter < ID_LIMIT && k < |run|
    ensures DistinctIds(After(dirs, maxLive, run).entries)
    ensures var out, r := ReservedAt(dirs, maxLive, run, k), After(dirs, maxLive, run[..k]);
            out.Some? ==>
              && ValidAgentId(out.value).Some? && ValidAgentId(out.value).value > r.counter
              && ValidAgentId(out.value).value == After(dirs, maxLive, run[..k + 1]).counter
              && (forall i :: 0 <= i < |r.entries| ==> r.entries[i].id != out.value)
              && (forall i :: 0 <= i < |r.dirs| ==> r.dirs[i].name != out.value)
  {
    hide ReserveStep, ValidAgentId, UndisturbedRun;
    RunKeepsInv(dirs, maxLive, run);
    var r := After(dirs, maxLive, run[..k]);
    PrefixUndisturbed(dirs, maxLive, run, k);
    CounterGrowsOverRun(dirs, maxLive, run, k);
    CounterGrowsOverRun(dirs, maxLive, run, k + 1);
    RunKeepsInv(dirs, maxLive, run[..k]);
    assert run[..k + 1][..k] == run[..k];
    if run[k].Reserve? { ReservedIsFresh(r, maxLive, run[k].now, run[k].createFails); }
  }

  /** Later reservations carry larger numbers. */
  lemma IdsIncrease(dirs: seq<AgentDir>, maxLive: nat, run: seq<Event>, j: nat, k: nat)
    requires UndisturbedRun(dirs, maxLive, run) && After(dirs, maxLive, run).counter < ID_LIMIT
    requires j < k < |run|
    requires ReservedAt(dirs, maxLive, run, j).Some? && ReservedAt(dirs, maxLive, run, k).Some?
    ensures var earlier, later := ReservedAt(dirs, maxLive, run, j).value, ReservedAt(dirs, maxLive, run, k).value;
            var a, b := ValidAgentId(earlier), ValidAgentId(later);
            a.Some? && b.Some? && a.value < b.value
  {
    hide ReservedAt, ValidAgentId, UndisturbedRun, After;
    IdsAreFresh(dirs, maxLive, run, j);
    IdsAreFresh(dirs, maxLive, run, k);
    CounterGrowsOverRun(dirs, maxLive, run[..k], j + 1);
    assert run[..k][..j + 1] == run[..j + 1];
  }

  // ---------- states and times ----------

  predicate FinishedMatches(entries: seq<AgentEntry>) {
    forall i :: 0 <= i < |entries| ==> (entries[i].finished.Some? <==> IsTerminal(entries[i].state))
  }

  /** In every run an entry has a finishing time exactly when its state is terminal. */
  lemma {:induction false} FinishedIffTerminal(dirs: seq<AgentDir>, maxLive: nat, run: seq<Event>)
    ensures FinishedMatches(After(dirs, maxLive, run).entries)
  {
    if run != [] {
      var init, e := run[..|run| - 1], run[|run| - 1];
      FinishedIffTerminal(dirs, maxLive, init);
      StepKeepsFinished(After(dirs, maxLive, init), maxLive, e);
    }
  }

  lemma StepKeepsFinished(r: Registry, maxLive: nat, e: Event)
    requires FinishedMatches(r.entries)
    ensures FinishedMatches(Step(r, maxLive, e).entries)
  {
    hide RecordState, LargestId, ValidAgentId, DiskState;
  }

  // ---------- the live limit ----------

  function Live(e: AgentEntry): nat { if IsTerminal(e.state) then 0 else 1 }

  lemma {:induction false} LiveCountUpdate(entries: seq<AgentEntry>, i: nat, e: AgentEntry)
    requires i < |entries|
    ensures LiveCount(entries[i := e]) + Live(entries[i]) == LiveCount(entries) + Live(e)
  {
    var n := |entries| - 1;
    if i < n {
      LiveCountUpdate(entries[..n], i, e);
      assert entries[i := e][..n] == entries[..n][i := e];
    } else {
      assert entries[i := e][..n] == entries[..n];
    }
  }

  lemma LiveCountSnoc(entries: seq<AgentEntry>, e: AgentEntry)
    ensures LiveCount(entries + [e]) == LiveCount(entries) + Live(e)
  {
    assert (entries + [e])[..|entries|] == entries;
  }

  lemma {:induction false} KillingLowersLive(entries: seq<AgentEntry>, now: nat)
    ensures LiveCount(KilledAll(entries, now)) <= LiveCount(entries)
  {
    if entries != [] {
      var n := |entries| - 1;
      KillingLowersLive(entries[..n], now);
      assert KilledAll(entries, now)[..n] == KilledAll(entries[..n], now);
    }
  }

  /** A successful reservation never leaves more than `maxLive` live entries. */
  lemma ReserveWithinLimit(r: Registry, maxLive: nat, now: nat, createFails: bool)
    ensures var (r', out) := ReserveStep(r, maxLive, now, createFails);
            out.Ok? ==> LiveCount(r'.entries) == LiveCount(r.entries) + 1 <= maxLive
  {
    hide LargestId, MakeDir, AgentId, LiveCount;
    LiveCountSnoc(r.entries, AgentEntry(AgentId(Seed(r).counter + 1), None, Queued, now, None));
  }

  /** The step neither reactivates an agent nor takes one out of a terminal state. */
  predicate NoRevival(r: Registry, e: Event) {
    && !e.Reactivate?
    && (e.SetState? ==>
          var i := IndexOf(r.entries, e.id);
          i < |r.entries| && IsTerminal(r.entries[i].state) ==> IsTerminal(e.state))
  }

  lemma StepKeepsLimit(r: Registry, maxLive: nat, e: Event)
    requires NoRevival(r, e) && LiveCount(r.entries) <= maxLive
    ensures LiveCount(Step(r, maxLive, e).entries) <= maxLive
  {
    hide LargestId, RecordState, Adoptable, ReserveStep, LiveCount, ValidAgentId;
    match e
    case Reserve(now, createFails) =>
      ReserveWithinLimit(r, maxLive, now, createFails);
      RefusedReserveKeepsEntries(r, maxLive, now, createFails);
    case Adopt(id, now) => AdoptKeepsLive(r, id, now);
    case SetState(id, state, now) =>
      var i := IndexOf(r.entries, id);
      if i < |r.entries| { LiveCountUpdate(r.entries, i, WithState(r.entries[i], state, now)); }
    case SetPid(id, pid) =>
      var i := IndexOf(r.entries, id);
      if i < |r.entries| { LiveCountUpdate(r.entries, i, r.entries[i].(pid := Some(pid))); }
    case KillAll(now) => KillingLowersLive(r.entries, now);
    case _ =>
  }

  lemma RefusedReserveKeepsEntries(r: Registry, maxLive: nat, now: nat, createFails: bool)
    ensures var (r', out) := ReserveStep(r, maxLive, now, createFails); out.Err? ==> r'.entries == r.entries
  {
    hide LargestId;
  }

  /** Adoption only ever adds finished agents. */
  lemma AdoptKeepsLive(r: Registry, id: string, now: nat)
    ensures LiveCount(AdoptStep(r, id, now).0.entries) == LiveCount(r.entries)
  {
    hide LargestId, LiveCount, ValidAgentId, DiskState;
    if IndexOf(r.entries, id) == |r.entries| && Adoptable(r.dirs, id).Ok? {
      LiveCountSnoc(r.entries, AgentEntry(id, None, Adoptable(r.dirs, id).value, now, Some(now)));
    }
  }

  /** Without revivals the number of live agents never exceeds the limit. */
  lemma {:induction false} LiveWithinLimit(dirs: seq<AgentDir>, maxLive: nat, run: seq<Event>)
    requires forall k :: 0 <= k < |run| ==> NoRevival(After(dirs, maxLive, run[..k]), run[k])
    ensures LiveCount(After(dirs, maxLive, run).entries) <= maxLive
  {
    hide NoRevival, Step;
    if run != [] {
      var init, e := run[..|run| - 1], run[|run| - 1];
      assert forall k :: 0 <= k < |init| ==> init[..k] == run[..k] && init[k] == run[k];
      LiveWithinLimit(dirs, maxLive, init);
      StepKeepsLimit(After(dirs, maxLive, init), maxLive, e);
    }
  }

  // ---------- shutdown and reports ----------

  /** Once `kill_all` has run, every reservation is refused, for good. */
  lemma {:induction false} NothingAfterShutdown(
      dirs: seq<AgentDir>, maxLive: nat, a: seq<Event>, killed: nat, b: seq<Event>, now: nat, createFails: bool)
    ensures var r := After(dirs, maxLive, a + [KillAll(killed)] + b);
            r.closed && ReserveStep(r, maxLive, now, createFails) == (r, Err(ShuttingDown))
  {
    hide LargestId, RecordState, Adoptable, LiveCount, Seed, AdoptStep, SetStateStep, SetPidStep, ReactivateStep;
    hide MakeDir, KilledAll, AgentId;
    var run := a + [KillAll(killed)] + b;
    if b == [] {
      assert run == a + [KillAll(killed)];
      assert run[..|run| - 1] == a;
    } else {
      NothingAfterShutdown(dirs, maxLive, a, killed, b[..|b| - 1], now, createFails);
      assert run[..|run| - 1] == a + [KillAll(killed)] + b[..|b| - 1];
      ClosedStays(After(dirs, maxLive, run[..|run| - 1]), maxLive, run[|run| - 1]);
    }
  }

  lemma ClosedStays(r: Registry, maxLive: nat, e: Event)
    requires r.closed
    ensures Step(r, maxLive, e).closed
  {
    hide LargestId, RecordState, Adoptable, LiveCount;
  }

  function Pushed(run: seq<Event>): seq<string> {
    if run == [] then [] else
      Pushed(run[..|run| - 1]) + if run[|run| - 1].PushEntry? then [run[|run| - 1].text] else []
  }

  function Taken(dirs: seq<AgentDir>, maxLive: nat, run: seq<Event>): seq<string> {
    if run == [] then [] else
      Taken(dirs, maxLive, run[..|run| - 1])
      + if run[|run| - 1].TakeReports? then After(dirs, maxLive, run[..|run| - 1]).reports else []
  }

  /** Every pushed report is taken exactly once, in push order, or still waits. */
  lemma {:induction false} ReportsConserved(dirs: seq<AgentDir>, maxLive: nat, run: seq<Event>)
    ensures Pushed(run) == Taken(dirs, maxLive, run) + After(dirs, maxLive, run).reports
  {
    hide LargestId, RecordState, Adoptable, LiveCount;
    if run != [] {
      var init, e := run[..|run| - 1], run[|run| - 1];
      ReportsConserved(dirs, maxLive, init);
      var before := After(dirs, maxLive, init);
      if !e.PushEntry? && !e.TakeReports? { ReportsStay(before, maxLive, e); }
    }
  }

  lemma ReportsStay(r: Registry, maxLive: nat, e: Event)
    requires !e.PushEntry? && !e.TakeReports?
    ensures Step(r, maxLive, e).reports == r.reports
  {
    hide LargestId, RecordState, Adoptable, LiveCount;
  }
}
