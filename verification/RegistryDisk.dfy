/** What the registry writes into an agent's brief, and what a later process reads there (src/agent_registry.rs). */
module RegistryDisk {
  import opened Text
  import Decimal
  import opened AgentIds
  import opened Agents
  import opened FrontMatter
  import FrontMatterLaws
  import Brief
  import BriefMetadata
  import BriefWriters
  import OutcomeWriters
  import Archive

  // ---------- setting a state ----------

  lemma {:induction false} TokenTidy(s: string)
    requires s != "" && forall i :: 0 <= i < |s| ==> 'a' <= s[i] <= 'z' || s[i] == '_'
    ensures Tidy(s)
  {
  }

  lemma TokenStored(state: AgentState)
    ensures FmValue(AsStr(state)) == AsStr(state)
  {
    hide FmValue, Tidy;
    var s := AsStr(state);
    assert |s| <= 13;
    TokenTidy(s);
    StoredAsItIsExactly(s);
  }

  /** The directory of `id`: the first of that name. */
  predicate FirstDir(dirs: seq<AgentDir>, i: nat, id: string) {
    i < |dirs| && dirs[i].name == id && forall k :: 0 <= k < i ==> dirs[k].name != id
  }

  lemma FirstDirIndex(dirs: seq<AgentDir>, i: nat, id: string)
    requires FirstDir(dirs, i, id)
    ensures DirIndex(dirs, id) == i
  {
  }

  /** The first tracked entry with the id. */
  predicate Tracked(entries: seq<AgentEntry>, i: nat, id: string) {
    i < |entries| && entries[i].id == id && forall k :: 0 <= k < i ==> entries[k].id != id
  }

  /** What a state change leaves in memory: the state, and a finishing time kept from the first final state on. */
  lemma StateIsTracked(r: Registry, id: string, state: AgentState, now: nat, i: nat)
    requires Tracked(r.entries, i, id)
    ensures var before, after := r.entries, SetStateStep(r, id, state, now).entries;
            && |after| == |before| && after[i].state == state
            && after[i].id == id && after[i].pid == before[i].pid && after[i].started == before[i].started
            && (after[i].finished.Some? <==> IsTerminal(state))
            && (IsTerminal(state) && before[i].finished.Some? ==> after[i].finished == before[i].finished)
            && (IsTerminal(state) && before[i].finished.None? ==> after[i].finished == Some(now))
            && forall k :: 0 <= k < |before| && k != i ==> after[k] == before[k]
  {
    hide RecordState;
  }

  /** A brief with a line for the state: its writers find it. */
  predicate HasStateLine(d: AgentDir) {
    d.brief.Some? && HasKey(SplitInclusive(d.brief.value), STATE)
  }

  /**
   * A state change reaches the disk: the agent's brief then reads as exactly that state wherever its reader sees
   * the block at all, its other fields stay, and so do its report and every other directory.
   */
  lemma StateIsWritten(r: Registry, id: string, state: AgentState, now: nat, e: nat, i: nat)
    requires Tracked(r.entries, e, id) && FirstDir(r.dirs, i, id) && HasStateLine(r.dirs[i])
    ensures var before, after := r.dirs, SetStateStep(r, id, state, now).dirs;
            && |after| == |before| && (forall k :: 0 <= k < |before| && k != i ==> after[k] == before[k])
            && after[i].name == id && after[i].report == before[i].report && after[i].brief.Some?
            && Get(after[i].brief.value, STATE) == (if SeesBlock(before[i]) then Some(AsStr(state)) else None)
            && forall key :: key != STATE ==> Get(after[i].brief.value, key) == Get(before[i].brief.value, key)
  {
    hide Get, SetField, FmValue, HasKey, SplitInclusive, Lines, FrontMatterLaws.PlainKey;
    FirstDirIndex(r.dirs, i, id);
    var content := r.dirs[i].brief.value;
    Archive.StateKeyPlain();
    Archive.SetIffKey(content, STATE, AsStr(state));
    TokenStored(state);
    FrontMatterLaws.SetThenGet(content, STATE, AsStr(state));
    forall key | key != STATE
      ensures Get(SetField(content, STATE, AsStr(state)).value, key) == Get(content, key)
    {
      FrontMatterLaws.SetKeepsOtherKeys(content, STATE, AsStr(state), key);
    }
  }

  /** The reader of the brief sees a front-matter block. */
  predicate SeesBlock(d: AgentDir) { d.brief.Some? && Visible(Lines(d.brief.value)) }

  /** With no such line, no directory or no such agent nothing on disk changes. */
  lemma NothingIsWritten(r: Registry, id: string, state: AgentState, now: nat)
    requires (forall k :: 0 <= k < |r.entries| ==> r.entries[k].id != id)
          || (forall i: nat :: FirstDir(r.dirs, i, id) ==> !HasStateLine(r.dirs[i]))
    ensures SetStateStep(r, id, state, now).dirs == r.dirs
  {
    hide SetField, HasKey, SplitInclusive;
    var i := DirIndex(r.dirs, id);
    if i < |r.dirs| && r.dirs[i].brief.Some? {
      assert FirstDir(r.dirs, i, id);
      Archive.SetIffKey(r.dirs[i].brief.value, STATE, AsStr(state));
    }
  }

  // ---------- adopting ----------

  /** The state token the directory's files record: the brief's, else the report's. */
  predicate Records(d: AgentDir, token: string) {
    && d.brief.Some?
    && (|| Get(d.brief.value, STATE) == Some(token)
        || (Get(d.brief.value, STATE).None? && d.report.Some? && Get(d.report.value, STATE) == Some(token)))
  }

  /** The files of a valid `id` are its own and record a final state that a process, not a sweep, has written. */
  predicate Continuable(dirs: seq<AgentDir>, i: nat, id: string, state: AgentState) {
    && ValidAgentId(id).Some? && FirstDir(dirs, i, id) && dirs[i].brief.Some?
    && Get(dirs[i].brief.value, "id") == Some(id) && Records(dirs[i], AsStr(state))
    && (state.Completed? || state.LimitReached? || state.Failed? || state.Stopped?)
  }

  ghost predicate CanContinue(dirs: seq<AgentDir>, id: string, state: AgentState) {
    exists i :: Continuable(dirs, i, id, state)
  }

  /** An agent can be adopted in a state exactly when its files say so. */
  lemma AdoptableExactly(dirs: seq<AgentDir>, id: string, state: AgentState)
    ensures Adoptable(dirs, id) == Ok(state) <==> CanContinue(dirs, id, state)
  {
    hide Get, ValidAgentId;
    var i := DirIndex(dirs, id);
    if Adoptable(dirs, id) == Ok(state) {
      StateTokens(state, DiskState(dirs[i]).value);
      assert Continuable(dirs, i, id, state);
    }
    if j :| Continuable(dirs, j, id, state) {
      FirstDirIndex(dirs, j, id);
      StateTokens(state, AsStr(state));
    }
  }

  /** An adopted agent is tracked under its id in the state its files record, finished, with no process. */
  lemma AdoptedAsRecorded(r: Registry, id: string, now: nat)
    requires forall k :: 0 <= k < |r.entries| ==> r.entries[k].id != id
    ensures var (after, out) := AdoptStep(r, id, now);
            && after.dirs == r.dirs && after.closed == r.closed && after.reports == r.reports
            && (out.Ok? <==> exists state :: CanContinue(r.dirs, id, state))
            && (out.Ok? ==>
                  && CanContinue(r.dirs, id, out.value.state)
                  && out.value.id == id && out.value.pid.None?
                  && out.value.started == now && out.value.finished == Some(now)
                  && after.entries == r.entries + [out.value])
            && (out.Err? ==> after == r)
  {
    hide CanContinue, Adoptable, LargestId, ValidAgentId;
    assert IndexOf(r.entries, id) == |r.entries|;
    forall state ensures Adoptable(r.dirs, id) == Ok(state) <==> CanContinue(r.dirs, id, state) {
      AdoptableExactly(r.dirs, id, state);
    }
    if Adoptable(r.dirs, id).Ok? { AdoptableIsValid(r.dirs, id); }
  }

  lemma AdoptableIsValid(dirs: seq<AgentDir>, id: string)
    requires Adoptable(dirs, id).Ok?
    ensures ValidAgentId(id).Some?
  {
    hide ValidAgentId;
  }

  // ---------- from one process to the next ----------

  /**
   * A process sets the state of an agent whose brief bears its id; a later one, with nothing but the disk, finds
   * it continuable in exactly that state when it is final, and turns it down when it is not. A sweep leaves a
   * brief with a final state alone, and makes any other read as interrupted.
   */
  lemma LaterProcessFinds(r: Registry, id: string, state: AgentState, now: nat, e: nat, i: nat)
    requires Tracked(r.entries, e, id) && FirstDir(r.dirs, i, id)
    requires HasStateLine(r.dirs[i]) && SeesBlock(r.dirs[i])
    requires ValidAgentId(id).Some? && Get(r.dirs[i].brief.value, "id") == Some(id)
    ensures var dirs := SetStateStep(r, id, state, now).dirs;
            && |dirs| == |r.dirs| && dirs[i].brief.Some?
            && Adoptable(dirs, id) ==
               (if IsTerminal(state) && !state.Interrupted? then Ok(state) else Err(NotContinuable))
            && var a := Archive.AgentFile(true, dirs[i].brief);
               && (Archive.SweepAgent(a) == a <==> IsTerminal(state))
               && Archive.StateOf(Archive.SweepAgent(a)) ==
                  Some(if IsTerminal(state) then AsStr(state) else "interrupted")
  {
    hide HasStateLine, SeesBlock, SetStateStep, ValidAgentId, Get, Adoptable, Archive.SweepAgent;
    hide Archive.StateOf;
    StateIsWritten(r, id, state, now, e, i);
    var dirs := SetStateStep(r, id, state, now).dirs;
    assert FirstDir(dirs, i, id) by { SameFirstDir(r, id, state, now, i); }
    assert Get(dirs[i].brief.value, "id") == Some(id);
    AdoptionOf(dirs, i, id, state);
    StillSettable(r, id, state, now, e, i);
    SweepOf(Archive.AgentFile(true, dirs[i].brief), state);
  }

  lemma SameFirstDir(r: Registry, id: string, state: AgentState, now: nat, i: nat)
    requires FirstDir(r.dirs, i, id)
    ensures FirstDir(SetStateStep(r, id, state, now).dirs, i, id)
  {
    hide SetField;
    FirstDirIndex(r.dirs, i, id);
  }

  lemma AdoptionOf(dirs: seq<AgentDir>, i: nat, id: string, state: AgentState)
    requires FirstDir(dirs, i, id) && dirs[i].brief.Some? && ValidAgentId(id).Some?
    requires Get(dirs[i].brief.value, "id") == Some(id) && Get(dirs[i].brief.value, STATE) == Some(AsStr(state))
    ensures Adoptable(dirs, id) ==
            if IsTerminal(state) && !state.Interrupted? then Ok(state) else Err(NotContinuable)
  {
    hide Get, ValidAgentId;
    FirstDirIndex(dirs, i, id);
    StateTokens(state, AsStr(state));
  }

  lemma StillSettable(r: Registry, id: string, state: AgentState, now: nat, e: nat, i: nat)
    requires Tracked(r.entries, e, id) && FirstDir(r.dirs, i, id) && HasStateLine(r.dirs[i])
    ensures var dirs := SetStateStep(r, id, state, now).dirs;
            |dirs| == |r.dirs| && Archive.Settable(Archive.AgentFile(true, dirs[i].brief))
  {
    hide SetField, HasKey, SplitInclusive, FrontMatterLaws.PlainKey;
    FirstDirIndex(r.dirs, i, id);
    var content := r.dirs[i].brief.value;
    Archive.SetIffKey(content, STATE, AsStr(state));
    FrontMatterLaws.SetTwice(content, STATE, AsStr(state), "");
    Archive.SetIffKey(content, STATE, "");
    Archive.SetIffKey(SetField(content, STATE, AsStr(state)).value, STATE, "");
  }

  /** What a sweep makes of a brief that records this state. */
  lemma SweepOf(a: Archive.AgentFile, state: AgentState)
    requires a.isDir && Archive.Settable(a) && Get(a.brief.value, STATE) == Some(AsStr(state))
    ensures Archive.SweepAgent(a) == a <==> IsTerminal(state)
    ensures Archive.StateOf(Archive.SweepAgent(a)) == Some(if IsTerminal(state) then AsStr(state) else "interrupted")
  {
    hide Get, SetField, HasKey, SplitInclusive, Archive.IsTerminalState, FromDiskStr;
    Archive.FinalTokens(AsStr(state));
    StateTokens(state, AsStr(state));
    if !IsTerminal(state) {
      Archive.SweptAgentReads(a);
      assert AsStr(state) != "interrupted";
    }
  }

  // ---------- briefs as nanopi writes them ----------

  lemma IdStored(id: string)
    requires ValidAgentId(id).Some?
    ensures FmValue(id) == id
  {
    hide FmValue, Tidy;
    assert forall i :: 0 < i < |id| ==> id[i] == id[1..][i - 1] && Decimal.IsDigit(id[1..][i - 1]);
    IdTidy(id);
    StoredAsItIsExactly(id);
  }

  lemma IdTidy(id: string)
    requires forall i :: 0 <= i < |id| ==> 'a' == id[i] || '0' <= id[i] <= '9'
    ensures Tidy(id)
  {
  }

  /** A brief rendered for an agent, after any of its writers, meets every condition of a later adoption. */
  lemma OwnBriefQualifies(
      spec: Brief.BriefSpec, meta: BriefMetadata.BriefMeta, tasks: seq<OutcomeWriters.Task>, d: AgentDir)
    requires ValidAgentId(meta.id).Some?
    requires d.brief == OutcomeWriters.Serially(Some(OutcomeWriters.Rendered(spec, meta)), tasks)
    ensures HasStateLine(d) && SeesBlock(d) && Get(d.brief.value, "id") == Some(meta.id)
  {
    hide FmValue, HasKey, SplitInclusive, Lines, SetField, Get, OutcomeWriters.Rendered, OutcomeWriters.Serially;
    hide BriefMetadata.Fields, OutcomeWriters.OutcomeHead;
    var h := OutcomeWriters.SeriallyAfter(spec, meta, tasks);
    var content := d.brief.value;
    OutcomeWriters.AfterState(content, h, meta, tasks, "");
    Archive.SetIffKey(content, STATE, "");
    OutcomeWriters.FileVisible(h, Brief.Chunks(BriefWriters.Entries(OutcomeWriters.LockedJobs(tasks))));
    OutcomeWriters.OtherFieldsStay(spec, meta, tasks, "id");
    IdStored(meta.id);
    RenderedId(spec, meta);
  }

  lemma RenderedId(spec: Brief.BriefSpec, meta: BriefMetadata.BriefMeta)
    ensures Get(OutcomeWriters.Rendered(spec, meta), "id") == Some(FmValue(meta.id))
  {
    hide FmValue, Get, Unlines, BriefMetadata.MetaLines, BriefMetadata.ToolsField, Trim;
    BriefMetadata.RenderedGet(spec, meta, "id");
    assert BriefMetadata.Fields(spec, meta)[0] == Field("id", FmValue(meta.id));
  }
}
