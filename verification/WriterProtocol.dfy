/**
 * The two writers of a brief as interleaved steps. A state change takes the lock, reads the file, writes it
 * back with the state replaced, and releases; an amendment takes the same lock, appends, and releases.
 */
module WriterProtocol {
  import opened Text
  import opened Sequences
  import opened Brief
  import opened AmendmentFile
  import opened FrontMatter
  import opened BriefMetadata
  import opened BriefWriters

  datatype Pc = Waiting | Holding | HasRead(content: Option<string>) | Wrote | Finished

  /** The shared file and lock, each writer's progress, and the orders of taking the lock and of writing. */
  datatype World = World(file: Option<string>, lock: Option<nat>, pcs: seq<Pc>, acquired: seq<nat>, log: seq<nat>)

  function Start(file: Option<string>, n: nat): World {
    World(file, None, seq(n, _ => Waiting), [], [])
  }

  /** Write back the copy read earlier, with the state replaced; nothing is written when there is no such field. */
  function WriteBack(file: Option<string>, copy: Option<string>, state: string): Option<string> {
    if copy.None? then file else
      var updated := SetField(copy.value, STATE, state);
      if updated.Some? then updated else file
  }

  /** The next step of writer `t`; `None` when it has none or must wait for the lock. */
  function Step(jobs: seq<Job>, w: World, t: nat): Option<World>
    requires |w.pcs| == |jobs|
  {
    if t >= |jobs| then None else
      match w.pcs[t]
      case Waiting =>
        if w.lock.Some? then None
        else Some(w.(lock := Some(t), pcs := w.pcs[t := Holding], acquired := w.acquired + [t]))
      case Holding => (
        match jobs[t]
        case SetState(_) => Some(w.(pcs := w.pcs[t := HasRead(w.file)]))
        case Amend(e) =>
          Some(w.(file := Some((if w.file.Some? then w.file.value else "") + Chunk(e)),
                  pcs := w.pcs[t := Wrote], log := w.log + [t])))
      case HasRead(copy) =>
        Some(w.(file := if jobs[t].SetState? then WriteBack(w.file, copy, jobs[t].state) else w.file,
                pcs := w.pcs[t := Wrote], log := w.log + [t]))
      case Wrote => Some(w.(lock := None, pcs := w.pcs[t := Finished]))
      case Finished => None
  }

  /** Running a schedule: one step of the named writer at a time. */
  function Run(jobs: seq<Job>, w: World, schedule: seq<nat>): (r: Option<World>)
    requires |w.pcs| == |jobs|
    ensures r.Some? ==> |r.value.pcs| == |jobs|
  {
    if schedule == [] then Some(w) else
      var before := Run(jobs, w, schedule[..|schedule| - 1]);
      if before.None? then None else Step(jobs, before.value, schedule[|schedule| - 1])
  }

  function JobsOf(jobs: seq<Job>, log: seq<nat>): seq<Job>
    requires InRange(log, |jobs|)
  {
    seq(|log|, i requires 0 <= i < |log| => jobs[log[i]])
  }

  predicate Outside(pc: Pc) { pc.Waiting? || pc.Finished? }

  predicate HasWritten(pc: Pc) { pc.Wrote? || pc.Finished? }

  /** What every step keeps. */
  predicate Inv(jobs: seq<Job>, file: Option<string>, w: World) {
    && |w.pcs| == |jobs|
    && (forall t :: 0 <= t < |jobs| ==> (w.lock == Some(t) <==> !Outside(w.pcs[t])))
    && (w.lock.Some? ==> w.lock.value < |jobs|)
    && (forall t :: 0 <= t < |jobs| && w.pcs[t].HasRead? ==> jobs[t].SetState? && w.pcs[t].content == w.file)
    && InRange(w.log, |jobs|)
    && Distinct(w.log)
    && (forall t :: 0 <= t < |jobs| ==> (t in w.log <==> HasWritten(w.pcs[t])))
    && w.acquired == w.log + (if w.lock.Some? && !HasWritten(w.pcs[w.lock.value]) then [w.lock.value] else [])
    && w.file == Serial(file, JobsOf(jobs, w.log))
  }

  lemma LogOneMore(jobs: seq<Job>, file: Option<string>, log: seq<nat>, t: nat)
    requires t < |jobs| && InRange(log, |jobs|)
    ensures InRange(log + [t], |jobs|)
    ensures Serial(file, JobsOf(jobs, log + [t])) == ApplyJob(Serial(file, JobsOf(jobs, log)), jobs[t])
  {
    hide ApplyJob;
    var js := JobsOf(jobs, log + [t]);
    assert js[..|log|] == JobsOf(jobs, log);
  }

  lemma StepKeepsInv(jobs: seq<Job>, file: Option<string>, w: World, t: nat)
    requires Inv(jobs, file, w) && Step(jobs, w, t).Some?
    ensures Inv(jobs, file, Step(jobs, w, t).value)
  {
    hide Chunk, SetField, Serial;
    var r := Step(jobs, w, t).value;
    match w.pcs[t]
    case Waiting =>
    case Holding =>
      if jobs[t].Amend? { LogOneMore(jobs, file, w.log, t); }
    case HasRead(copy) =>
      LogOneMore(jobs, file, w.log, t);
    case Wrote =>
  }

  /** Whatever the interleaving, the file is what its writers give one after another in lock order. */
  lemma {:induction false} EveryRunIsSerial(jobs: seq<Job>, file: Option<string>, schedule: seq<nat>)
    ensures var r := Run(jobs, Start(file, |jobs|), schedule);
            r.Some? ==> Inv(jobs, file, r.value)
  {
    hide Step, Serial;
    if schedule == [] {
      StartInv(jobs, file);
    } else {
      var init := schedule[..|schedule| - 1];
      EveryRunIsSerial(jobs, file, init);
      var before := Run(jobs, Start(file, |jobs|), init);
      if before.Some? && Step(jobs, before.value, schedule[|schedule| - 1]).Some? {
        StepKeepsInv(jobs, file, before.value, schedule[|schedule| - 1]);
      }
    }
  }

  lemma StartInv(jobs: seq<Job>, file: Option<string>)
    ensures Inv(jobs, file, Start(file, |jobs|))
  {
  }

  predicate AllFinished(w: World) {
    forall t :: 0 <= t < |w.pcs| ==> w.pcs[t].Finished?
  }

  /**
   * Two-writer protocol: once every writer has finished, each has written exactly once, the brief carries the
   * state set last in lock order, and its amendments are all those appended, in lock order.
   */
  lemma FinalBrief(spec: BriefSpec, meta: BriefMeta, jobs: seq<Job>, schedule: seq<nat>, w: World)
    requires TimedJobs(jobs)
    requires Run(jobs, Start(Some(Unlines(MetaLines(spec, meta))), |jobs|), schedule) == Some(w)
    requires AllFinished(w)
    ensures Distinct(w.acquired) && InRange(w.acquired, |jobs|)
    ensures forall t: nat :: t < |jobs| ==> t in w.acquired
    ensures w.file.Some?
    ensures var done := JobsOf(jobs, w.acquired);
            && Amendments(w.file.value, true) == Readings(Entries(done))
            && Get(w.file.value, STATE) ==
               Some(FmValue(if LastState(done).Some? then LastState(done).value else meta.state))
  {
    hide Run, Serial, Amendments, Readings, Get, FmValue, Unlines, MetaLines, Start;
    EveryRunIsSerial(jobs, Some(Unlines(MetaLines(spec, meta))), schedule);
    assert w.lock.None?;
    assert w.acquired == w.log;
    var done := JobsOf(jobs, w.log);
    assert TimedJobs(done) by {
      assert forall i :: 0 <= i < |done| ==> done[i] == jobs[w.log[i]];
    }
    SerialReads(spec, meta, done);
  }
}
