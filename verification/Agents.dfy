/** The registry of child agents of one run (src/agent_registry.rs); each method is one atomic step. */
module Agents {
  import opened Text
  import opened Sequences
  import opened AgentIds
  import FrontMatter

  /** One tracked child; times are readings of the caller's clock. */
  datatype AgentEntry = AgentEntry(id: string, pid: Option<nat>, state: AgentState, started: nat, finished: Option<nat>)

  /** A directory of the run: its name, and the texts of `brief.md` and `report.md` when present. */
  datatype AgentDir = AgentDir(name: string, brief: Option<string>, report: Option<string>)

  datatype Registry = Registry(
    counter: nat, entries: seq<AgentEntry>, seeded: bool, closed: bool, reports: seq<string>, dirs: seq<AgentDir>)

  datatype Refusal = ShuttingDown | LimitReachedError | CreateFailed | NoSuchAgent | NotContinuable | NotTerminal

  datatype Outcome<T> = Ok(value: T) | Err(refusal: Refusal)

  // ---------- looking things up ----------

  /** The first entry with the id, or the number of entries. */
  function IndexOf(entries: seq<AgentEntry>, id: string): (i: nat)
    ensures i <= |entries| && (i < |entries| ==> entries[i].id == id)
    ensures forall k :: 0 <= k < i ==> entries[k].id != id
  {
    IndexWhere(entries, (e: AgentEntry) => e.id == id)
  }

  function DirIndex(dirs: seq<AgentDir>, name: string): (i: nat)
    ensures i <= |dirs| && (i < |dirs| ==> dirs[i].name == name)
    ensures forall k :: 0 <= k < i ==> dirs[k].name != name
  {
    IndexWhere(dirs, (d: AgentDir) => d.name == name)
  }

  function LiveCount(entries: seq<AgentEntry>): nat {
    if entries == [] then 0
    else LiveCount(entries[..|entries| - 1]) + if IsTerminal(entries[|entries| - 1].state) then 0 else 1
  }

  function Max(a: nat, b: nat): nat { if a > b then a else b }

  /** The largest number of a valid id among the directory names. */
  function LargestId(dirs: seq<AgentDir>): nat {
    if dirs == [] then 0 else
      var n := ValidAgentId(dirs[|dirs| - 1].name);
      var m := LargestId(dirs[..|dirs| - 1]);
      if n.Some? then Max(m, n.value) else m
  }

  // ---------- steps on values ----------

  /** The first reservation or adoption raises the counter past every id on disk. */
  function Seed(r: Registry): Registry {
    if r.seeded then r else r.(seeded := true, counter := Max(r.counter, LargestId(r.dirs)))
  }

  function MakeDir(dirs: seq<AgentDir>, name: string): seq<AgentDir> {
    if DirIndex(dirs, name) < |dirs| then dirs else dirs + [AgentDir(name, None, None)]
  }

  function ReserveRefusal(r: Registry, maxLive: nat): Option<Refusal> {
    if r.closed then Some(ShuttingDown)
    else if LiveCount(r.entries) >= maxLive then Some(LimitReachedError)
    else None
  }

  function ReserveStep(r: Registry, maxLive: nat, now: nat, createFails: bool): (Registry, Outcome<string>) {
    if ReserveRefusal(r, maxLive).Some? then (r, Err(ReserveRefusal(r, maxLive).value)) else
      var s := Seed(r);
      var id := AgentId(s.counter + 1);
      var s' := s.(counter := s.counter + 1);
      if createFails then (s', Err(CreateFailed))
      else (s'.(dirs := MakeDir(s.dirs, id), entries := s.entries + [AgentEntry(id, None, Queued, now, None)]), Ok(id))
  }

  /** The state a directory's files record: the brief's, else the report's. */
  function DiskState(d: AgentDir): Option<string>
    requires d.brief.Some?
  {
    var s := FrontMatter.Get(d.brief.value, FrontMatter.STATE);
    if s.Some? then s
    else if d.report.Some? then FrontMatter.Get(d.report.value, FrontMatter.STATE)
    else None
  }

  /** Whether the files of `id` describe a finished agent that may be continued, and in which state. */
  function Adoptable(dirs: seq<AgentDir>, id: string): Outcome<AgentState> {
    if ValidAgentId(id).None? then Err(NoSuchAgent) else
      var i := DirIndex(dirs, id);
      if i == |dirs| || dirs[i].brief.None? then Err(NoSuchAgent)
      else if FrontMatter.Get(dirs[i].brief.value, "id") != Some(id) then Err(NoSuchAgent)
      else
        var token := DiskState(dirs[i]);
        if token.None? || FromDiskStr(token.value).None? then Err(NoSuchAgent)
        else
          var state := FromDiskStr(token.value).value;
          if !IsTerminal(state) || state == Interrupted then Err(NotContinuable) else Ok(state)
  }

  function AdoptStep(r: Registry, id: string, now: nat): (Registry, Outcome<AgentEntry>) {
    var i := IndexOf(r.entries, id);
    if i < |r.entries| then (r, Ok(r.entries[i])) else
      match Adoptable(r.dirs, id)
      case Err(e) => (r, Err(e))
      case Ok(state) =>
        var e := AgentEntry(id, None, state, now, Some(now));
        var s := Seed(r.(entries := r.entries + [e]));
        (s.(counter := Max(s.counter, ValidAgentId(id).value)), Ok(e))
  }

  function WithState(e: AgentEntry, state: AgentState, now: nat): AgentEntry {
    e.(state := state,
       finished := if !IsTerminal(state) then None else if e.finished.Some? then e.finished else Some(now))
  }

  /** The state is also written into the agent's brief, when that has a field for it. */
  function RecordState(dirs: seq<AgentDir>, id: string, state: AgentState): seq<AgentDir> {
    var i := DirIndex(dirs, id);
    if i == |dirs| || dirs[i].brief.None? then dirs else
      var updated := FrontMatter.SetField(dirs[i].brief.value, FrontMatter.STATE, AsStr(state));
      if updated.None? then dirs else dirs[i := dirs[i].(brief := updated)]
  }

  function SetStateStep(r: Registry, id: string, state: AgentState, now: nat): Registry {
    var i := IndexOf(r.entries, id);
    if i == |r.entries| then r
    else r.(entries := r.entries[i := WithState(r.entries[i], state, now)], dirs := RecordState(r.dirs, id, state))
  }

  function SetPidStep(r: Registry, id: string, pid: nat): Registry {
    var i := IndexOf(r.entries, id);
    if i == |r.entries| then r else r.(entries := r.entries[i := r.entries[i].(pid := Some(pid))])
  }

  function ReactivateStep(r: Registry, id: string): (Registry, Outcome<()>) {
    var i := IndexOf(r.entries, id);
    if i == |r.entries| then (r, Err(NoSuchAgent))
    else if !IsTerminal(r.entries[i].state) then (r, Err(NotTerminal))
    else (r.(entries := r.entries[i := r.entries[i].(state := Queued, pid := None, finished := None)]), Ok(()))
  }

  function Killed(e: AgentEntry, now: nat): AgentEntry {
    if e.state.Running? then WithState(e, Stopped, now) else e
  }

  function KilledAll(entries: seq<AgentEntry>, now: nat): (r: seq<AgentEntry>)
    ensures |r| == |entries|
  {
    seq(|entries|, i requires 0 <= i < |entries| => Killed(entries[i], now))
  }

  function KillAllStep(r: Registry, now: nat): Registry {
    r.(closed := true, entries := KilledAll(r.entries, now))
  }

  // ---------- the implementation ----------

  class AgentRegistry {
    const maxLive: nat
    var counter: nat
    var entries: seq<AgentEntry>
    var seeded: bool
    var closed: bool
    var reports: seq<string>
    var dirs: seq<AgentDir>

    ghost function View(): Registry
      reads this
    {
      Registry(counter, entries, seeded, closed, reports, dirs)
    }

    constructor (maxLive: nat, dirs: seq<AgentDir>)
      ensures this.maxLive == maxLive && View() == Registry(0, [], false, false, [], dirs)
    {
      this.maxLive := maxLive;
      counter, entries, seeded, closed, reports := 0, [], false, false, [];
      this.dirs := dirs;
    }

    method SeedCounterFromDisk()
      modifies this`seeded, this`counter
      ensures View() == Seed(old(View()))
    {
      if seeded { return; }
      seeded := true;
      var maxN := 0;
      for i := 0 to |dirs|
        invariant maxN == LargestId(dirs[..i])
      {
        assert dirs[..i + 1][..i] == dirs[..i];
        var n := ValidAgentId(dirs[i].name);
        if n.Some? { maxN := Max(maxN, n.value); }
      }
      assert dirs[..|dirs|] == dirs;
      counter := Max(counter, maxN);
    }

    method CountLive() returns (live: nat)
      ensures live == LiveCount(entries)
    {
      live := 0;
      for i := 0 to |entries|
        invariant live == LiveCount(entries[..i])
      {
        assert entries[..i + 1][..i] == entries[..i];
        if !IsTerminal(entries[i].state) { live := live + 1; }
      }
      assert entries[..|entries|] == entries;
    }

    method Reserve(now: nat, createFails: bool) returns (r: Outcome<string>)
      modifies this
      ensures (View(), r) == ReserveStep(old(View()), maxLive, now, createFails)
    {
      if closed { return Err(ShuttingDown); }
      var live := CountLive();
      if live >= maxLive { return Err(LimitReachedError); }
      SeedCounterFromDisk();
      counter := counter + 1;
      var id := AgentId(counter);
      if createFails { return Err(CreateFailed); }
      dirs := MakeDir(dirs, id);
      entries := entries + [AgentEntry(id, None, Queued, now, None)];
      r := Ok(id);
    }

    method AdoptFromDisk(id: string, now: nat) returns (r: Outcome<AgentEntry>)
      modifies this
      ensures (View(), r) == AdoptStep(old(View()), id, now)
    {
      var i := IndexOf(entries, id);
      if i < |entries| { return Ok(entries[i]); }
      var n := ValidAgentId(id);
      if n.None? { return Err(NoSuchAgent); }
      var d := DirIndex(dirs, id);
      if d == |dirs| || dirs[d].brief.None? { return Err(NoSuchAgent); }
      if FrontMatter.Get(dirs[d].brief.value, "id") != Some(id) { return Err(NoSuchAgent); }
      var token := DiskState(dirs[d]);
      if token.None? { return Err(NoSuchAgent); }
      var state := FromDiskStr(token.value);
      if state.None? { return Err(NoSuchAgent); }
      if !IsTerminal(state.value) || state.value == Interrupted { return Err(NotContinuable); }
      var e := AgentEntry(id, None, state.value, now, Some(now));
      entries := entries + [e];
      SeedCounterFromDisk();
      counter := Max(counter, n.value);
      r := Ok(e);
    }

    method SetState(id: string, state: AgentState, now: nat)
      modifies this
      ensures View() == SetStateStep(old(View()), id, state, now)
    {
      var i := IndexOf(entries, id);
      if i == |entries| { return; }
      entries := entries[i := WithState(entries[i], state, now)];
      var d := DirIndex(dirs, id);
      if d < |dirs| && dirs[d].brief.Some? {
        var updated := FrontMatter.SetFrontMatterField(dirs[d].brief.value, FrontMatter.STATE, AsStr(state));
        if updated.Some? { dirs := dirs[d := dirs[d].(brief := updated)]; }
      }
    }

    method SetPid(id: string, pid: nat)
      modifies this
      ensures View() == SetPidStep(old(View()), id, pid)
    {
      var i := IndexOf(entries, id);
      if i < |entries| { entries := entries[i := entries[i].(pid := Some(pid))]; }
    }

    method Reactivate(id: string) returns (r: Outcome<()>)
      modifies this
      ensures (View(), r) == ReactivateStep(old(View()), id)
    {
      var i := IndexOf(entries, id);
      if i == |entries| { return Err(NoSuchAgent); }
      if !IsTerminal(entries[i].state) { return Err(NotTerminal); }
      entries := entries[i := entries[i].(state := Queued, pid := None, finished := None)];
      r := Ok(());
    }

    method KillAll(now: nat)
      modifies this
      ensures View() == KillAllStep(old(View()), now)
    {
      closed := true;
      for i := 0 to |entries|
        invariant |entries| == |old(entries)| && closed
        invariant forall k :: 0 <= k < i ==> entries[k] == Killed(old(entries)[k], now)
        invariant forall k :: i <= k < |entries| ==> entries[k] == old(entries)[k]
        invariant counter == old(counter) && seeded == old(seeded) && reports == old(reports) && dirs == old(dirs)
      {
        var e := entries[i];
        if e.state == Running {
          entries := entries[i := e.(state := Stopped, finished := if e.finished.Some? then e.finished else Some(now))];
        }
      }
    }

    method PushEntry(text: string)
      modifies this`reports
      ensures reports == old(reports) + [text]
    {
      reports := reports + [text];
    }

    /** Every waiting report as one text, in push order; the outbox is then empty. */
    method TakeReports() returns (r: Option<string>)
      modifies this`reports
      ensures r == if old(reports) == [] then None else Some(Join(old(reports), "\n\n"))
      ensures reports == []
    {
      if reports == [] { return None; }
      r := Some(Join(reports, "\n\n"));
      reports := [];
    }
  }
}
