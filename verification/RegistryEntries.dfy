/** What each call makes of the tracked agents, told entry by entry (src/agent_registry.rs). */
module RegistryEntries {
  import opened Text
  import opened Sequences
  import opened AgentIds
  import opened Agents
  import opened RegistryDisk

  // ---------- how many are live ----------

  predicate Live(e: AgentEntry) { e.state == Queued || e.state == Running }

  /** The live entries are those queued or running. */
  lemma {:induction false} LiveCountExactly(entries: seq<AgentEntry>)
    ensures LiveCount(entries) == |Filter(entries, (e: AgentEntry) => Live(e))|
  {
    if entries != [] { LiveCountExactly(entries[..|entries| - 1]); }
  }

  // ---------- reserving ----------

  /**
   * A reservation is refused after shutdown and when enough agents are live, and else fails only with its directory.
   * One that succeeds tracks a queued agent with no process, started now, behind the others, and gives it a
   * directory; one that does not leaves entries and directories as they were.
   */
  lemma ReservedExactly(r: Registry, maxLive: nat, now: nat, createFails: bool)
    ensures var (after, out) := ReserveStep(r, maxLive, now, createFails);
            var live := |Filter(r.entries, (e: AgentEntry) => Live(e))|;
            && (out == Err(ShuttingDown) <==> r.closed)
            && (out == Err(LimitReachedError) <==> !r.closed && live >= maxLive)
            && (out == Err(CreateFailed) <==> !r.closed && live < maxLive && createFails)
            && (out.Ok? <==> !r.closed && live < maxLive && !createFails)
            && (out.Ok? ==>
                  && after.entries == r.entries + [AgentEntry(out.value, None, Queued, now, None)]
                  && (exists i :: FirstDir(after.dirs, i, out.value)) && r.dirs <= after.dirs)
            && (out.Err? ==> after.entries == r.entries && after.dirs == r.dirs)
            && after.closed == r.closed && after.reports == r.reports
  {
    hide LargestId, Live, LiveCount, AgentId;
    LiveCountExactly(r.entries);
    var (after, out) := ReserveStep(r, maxLive, now, createFails);
    if out.Ok? { MadeDir(Seed(r).dirs, out.value); }
  }

  lemma MadeDir(dirs: seq<AgentDir>, name: string)
    ensures (exists i :: FirstDir(MakeDir(dirs, name), i, name)) && dirs <= MakeDir(dirs, name)
  {
    var after, i := MakeDir(dirs, name), DirIndex(dirs, name);
    assert i == |dirs| ==> after[i].name == name && forall k :: 0 <= k < i ==> after[k] == dirs[k];
    assert FirstDir(after, i, name);
  }

  // ---------- the other calls ----------

  /** A pid goes to the first entry of the id, and nothing else changes. */
  lemma PidIsTracked(r: Registry, id: string, pid: nat, i: nat)
    requires Tracked(r.entries, i, id)
    ensures var after := SetPidStep(r, id, pid);
            && |after.entries| == |r.entries| && after.entries[i] == r.entries[i].(pid := Some(pid))
            && (forall k :: 0 <= k < |r.entries| && k != i ==> after.entries[k] == r.entries[k])
            && after == r.(entries := after.entries)
  {
  }

  /** A revival takes an agent that has ended, and only such a one, and queues it without process or finishing time. */
  lemma RevivedExactly(r: Registry, id: string, i: nat)
    requires Tracked(r.entries, i, id)
    ensures var (after, out) := ReactivateStep(r, id);
            && (out.Ok? <==> !Live(r.entries[i])) && (out.Err? ==> out == Err(NotTerminal) && after == r)
            && (out.Ok? ==>
                  && |after.entries| == |r.entries|
                  && after.entries[i] == AgentEntry(id, None, Queued, r.entries[i].started, None)
                  && (forall k :: 0 <= k < |r.entries| && k != i ==> after.entries[k] == r.entries[k])
                  && after == r.(entries := after.entries))
  {
  }

  /** Calls about an agent that is not tracked change nothing. */
  lemma UntrackedChangesNothing(r: Registry, id: string, state: AgentState, now: nat, pid: nat)
    requires forall k :: 0 <= k < |r.entries| ==> r.entries[k].id != id
    ensures SetStateStep(r, id, state, now) == r && SetPidStep(r, id, pid) == r
    ensures ReactivateStep(r, id) == (r, Err(NoSuchAgent))
  {
    assert IndexOf(r.entries, id) == |r.entries|;
  }

  /** Shutdown stops what runs, keeps a finishing time that is there, and leaves every other entry. */
  lemma KilledExactly(r: Registry, now: nat, i: nat)
    requires i < |r.entries|
    ensures var after := KillAllStep(r, now);
            && after.closed && |after.entries| == |r.entries|
            && after.entries[i] == (if r.entries[i].state != Running then r.entries[i] else
                 r.entries[i].(state := Stopped,
                               finished := if r.entries[i].finished.Some? then r.entries[i].finished else Some(now)))
            && after == r.(closed := true, entries := after.entries)
  {
  }
}
