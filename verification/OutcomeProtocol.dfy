/**
 * The brief's three writers as interleaved steps. State changes and appends take the lock; the outcome of a
 * worktree is read, changed and written back without it, so a write that falls in between is lost.
 */
module OutcomeProtocol {
  import opened Text
  import opened Sequences
  import opened Brief
  import opened AmendmentFile
  import opened FrontMatter
  import opened BriefMetadata
  import opened BriefWriters
  import opened OutcomeWriters

  /** A copy remembers the writers it shows and how many writes there had been. */
  datatype Pc = Waiting | Holding | HasRead(content: Option<string>, shown: seq<nat>, at: nat) | Wrote | Finished

  /** The shared file and lock, every writer's progress, the writes so far, and those the file still shows. */
  datatype World = World(file: Option<string>, lock: Option<nat>, pcs: seq<Pc>, log: seq<nat>, kept: seq<nat>)

  function Start(file: Option<string>, n: nat): (w: World)
    ensures |w.pcs| == n
  {
    World(file, None, seq(n, _ => Waiting), [], [])
  }

  function Read(w: World): Pc { HasRead(w.file, w.kept, |w.log|) }

  /** Writing back the changed copy replaces the file, whatever was written since. */
  function WriteBack(w: World, t: nat, copy: Pc, updated: Option<string>): World
    requires copy.HasRead?
  {
    if updated.None? then w else w.(file := updated, log := w.log + [t], kept := copy.shown + [t])
  }

  /** The next step of writer `t`; `None` when it has none or must wait for the lock. */
  function Step(tasks: seq<Task>, w: World, t: nat): (r: Option<World>)
    requires |w.pcs| == |tasks|
    ensures r.Some? ==> |r.value.pcs| == |tasks|
  {
    if t >= |tasks| then None else
      match w.pcs[t]
      case Waiting =>
        if tasks[t].Outcome? then Some(w.(pcs := w.pcs[t := Read(w)]))
        else if w.lock.Some? then None
        else Some(w.(lock := Some(t), pcs := w.pcs[t := Holding]))
      case Holding => (
        match tasks[t]
        case Locked(Amend(e)) =>
          Some(w.(file := ApplyTask(w.file, tasks[t]), pcs := w.pcs[t := Wrote],
                  log := w.log + [t], kept := w.kept + [t]))
        case _ => Some(w.(pcs := w.pcs[t := Read(w)])))
      case HasRead(copy, _, _) =>
        var r := WriteBack(w, t, w.pcs[t], Update(tasks[t], copy));
        Some(r.(pcs := w.pcs[t := if tasks[t].Outcome? then Finished else Wrote]))
      case Wrote => Some(w.(lock := None, pcs := w.pcs[t := Finished]))
      case Finished => None
  }

  function Run(tasks: seq<Task>, w: World, schedule: seq<nat>): (r: Option<World>)
    requires |w.pcs| == |tasks|
    ensures r.Some? ==> |r.value.pcs| == |tasks|
  {
    if schedule == [] then Some(w) else
      var before := Run(tasks, w, schedule[..|schedule| - 1]);
      if before.None? then None else Step(tasks, before.value, schedule[|schedule| - 1])
  }

  /** This step does not write back a copy that another write has made stale. */
  predicate FreshStep(tasks: seq<Task>, w: World, t: nat)
    requires |w.pcs| == |tasks|
  {
    t < |tasks| && w.pcs[t].HasRead? && Update(tasks[t], w.pcs[t].content).Some? ==> w.pcs[t].at == |w.log|
  }

  /** In the whole run no other write falls between a writer's read and its write. */
  predicate Undisturbed(tasks: seq<Task>, w: World, schedule: seq<nat>)
    requires |w.pcs| == |tasks|
  {
    schedule != [] ==>
      var init := schedule[..|schedule| - 1];
      && Undisturbed(tasks, w, init)
      && (Run(tasks, w, init).Some? ==> FreshStep(tasks, Run(tasks, w, init).value, schedule[|schedule| - 1]))
  }

  function TasksOf(tasks: seq<Task>, ids: seq<nat>): (r: seq<Task>)
    requires InRange(ids, |tasks|)
    ensures |r| == |ids|
  {
    seq(|ids|, i requires 0 <= i < |ids| => tasks[ids[i]])
  }

  // ---------- the file shows the kept writers ----------

  /** A text that these writers give one after another. */
  predicate Shows(tasks: seq<Task>, start: Option<string>, content: Option<string>, ids: seq<nat>) {
    InRange(ids, |tasks|) && content == Serially(start, TasksOf(tasks, ids))
  }

  /** A copy shows its writers, and is the file itself when nothing was written since. */
  predicate CopyInv(tasks: seq<Task>, start: Option<string>, w: World, pc: Pc) {
    pc.HasRead? ==>
      && Shows(tasks, start, pc.content, pc.shown) && |pc.shown| <= pc.at <= |w.log|
      && (pc.at == |w.log| ==> pc.shown == w.kept)
  }

  predicate FileInv(tasks: seq<Task>, start: Option<string>, w: World) {
    && |w.pcs| == |tasks| && Shows(tasks, start, w.file, w.kept) && InRange(w.log, |tasks|) && |w.kept| <= |w.log|
    && forall t :: 0 <= t < |w.pcs| ==> CopyInv(tasks, start, w, w.pcs[t])
  }

  /** What is lost: nothing in an undisturbed run, something in any other. */
  predicate LossInv(w: World, clean: bool) {
    if clean then w.kept == w.log else |w.kept| < |w.log|
  }

  lemma ShowsOneMore(tasks: seq<Task>, start: Option<string>, content: Option<string>, ids: seq<nat>, t: nat)
    requires Shows(tasks, start, content, ids) && t < |tasks|
    ensures Shows(tasks, start, ApplyTask(content, tasks[t]), ids + [t])
  {
    hide ApplyTask;
    assert TasksOf(tasks, ids + [t])[..|ids|] == TasksOf(tasks, ids);
  }

  lemma UpdateApplies(task: Task, copy: Option<string>)
    requires Update(task, copy).Some?
    ensures ApplyTask(copy, task) == Update(task, copy)
  {
  }

  lemma StepKeepsInv(tasks: seq<Task>, start: Option<string>, w: World, t: nat, clean: bool)
    requires FileInv(tasks, start, w) && LossInv(w, clean) && Step(tasks, w, t).Some?
    ensures FileInv(tasks, start, Step(tasks, w, t).value)
    ensures LossInv(Step(tasks, w, t).value, clean && FreshStep(tasks, w, t))
  {
    hide Shows, ApplyTask, Update;
    var r := Step(tasks, w, t).value;
    assert CopyInv(tasks, start, w, w.pcs[t]);
    assert InRange(w.kept, |tasks|) by { ShownInRange(tasks, start, w.file, w.kept); }
    match w.pcs[t]
    case Waiting =>
    case Holding =>
      if tasks[t].Locked? && tasks[t].job.Amend? {
        ShowsOneMore(tasks, start, w.file, w.kept, t);
      }
    case HasRead(copy, shown, at) =>
      if Update(tasks[t], copy).Some? {
        ShowsOneMore(tasks, start, copy, shown, t);
        UpdateApplies(tasks[t], copy);
      }
    case Wrote =>
  }

  lemma ShownInRange(tasks: seq<Task>, start: Option<string>, content: Option<string>, ids: seq<nat>)
    requires Shows(tasks, start, content, ids)
    ensures InRange(ids, |tasks|)
  {
  }

  /** For every schedule: the file is what the kept writers give, and all are kept exactly in undisturbed runs. */
  lemma {:induction false} EveryRun(tasks: seq<Task>, start: Option<string>, schedule: seq<nat>)
    ensures var r := Run(tasks, Start(start, |tasks|), schedule);
            r.Some? ==>
              && FileInv(tasks, start, r.value)
              && LossInv(r.value, Undisturbed(tasks, Start(start, |tasks|), schedule))
  {
    hide Step, FreshStep, FileInv, LossInv, Start;
    var w := Start(start, |tasks|);
    assert FileInv(tasks, start, w) && LossInv(w, true) by { StartInv(tasks, start); }
    if schedule != [] {
      var init := schedule[..|schedule| - 1];
      EveryRun(tasks, start, init);
      var before := Run(tasks, w, init);
      if before.Some? && Step(tasks, before.value, schedule[|schedule| - 1]).Some? {
        StepKeepsInv(tasks, start, before.value, schedule[|schedule| - 1], Undisturbed(tasks, w, init));
      }
    }
  }

  lemma StartInv(tasks: seq<Task>, start: Option<string>)
    ensures var w := Start(start, |tasks|);
            FileInv(tasks, start, w) && LossInv(w, true)
  {
    assert TasksOf(tasks, []) == [];
  }

  // ---------- every writer writes once ----------

  predicate HasWritten(pc: Pc) { pc.Wrote? || pc.Finished? }

  /** Each writer that is through has written once; the file and every copy show only such writers, once each. */
  predicate OnceInv(tasks: seq<Task>, w: World) {
    && |w.pcs| == |tasks| && Once(w, w.log) && Once(w, w.kept)
    && (forall t :: 0 <= t < |w.pcs| && HasWritten(w.pcs[t]) ==> t in w.log)
    && (forall t :: 0 <= t < |w.pcs| && w.pcs[t].HasRead? ==> Once(w, w.pcs[t].shown))
  }

  predicate Once(w: World, ids: seq<nat>) {
    Distinct(ids) && forall t :: t in ids ==> t < |w.pcs| && HasWritten(w.pcs[t])
  }

  lemma OnceMore(w: World, r: World, ids: seq<nat>, t: nat)
    requires Once(w, ids) && t < |w.pcs| && !HasWritten(w.pcs[t])
    requires |r.pcs| == |w.pcs| && HasWritten(r.pcs[t])
    requires forall i :: 0 <= i < |w.pcs| && i != t ==> r.pcs[i] == w.pcs[i]
    ensures Once(r, ids + [t])
  {
    hide HasWritten;
    assert t !in ids;
  }

  lemma OnceStays(w: World, r: World, ids: seq<nat>)
    requires Once(w, ids) && |r.pcs| == |w.pcs|
    requires forall i :: 0 <= i < |w.pcs| && HasWritten(w.pcs[i]) ==> HasWritten(r.pcs[i])
    ensures Once(r, ids)
  {
  }

  /** A writer with a copy always changes it. */
  ghost predicate Updates(tasks: seq<Task>, start: Option<string>) {
    forall t: nat, ids: seq<nat> :: t < |tasks| && InRange(ids, |tasks|) && !IsAmend(tasks[t]) ==>
      Update(tasks[t], Serially(start, TasksOf(tasks, ids))).Some?
  }

  predicate IsAmend(task: Task) { task.Locked? && task.job.Amend? }

  predicate NoAmendReads(tasks: seq<Task>, w: World) {
    |w.pcs| == |tasks| && forall t :: 0 <= t < |tasks| && w.pcs[t].HasRead? ==> !IsAmend(tasks[t])
  }

  lemma StepWritesOnce(tasks: seq<Task>, start: Option<string>, w: World, t: nat)
    requires Updates(tasks, start) && FileInv(tasks, start, w) && OnceInv(tasks, w) && NoAmendReads(tasks, w)
    requires Step(tasks, w, t).Some?
    ensures OnceInv(tasks, Step(tasks, w, t).value) && NoAmendReads(tasks, Step(tasks, w, t).value)
  {
    hide ApplyTask, Update, Once, Serially, Updates;
    var r := Step(tasks, w, t).value;
    forall ids | Once(w, ids) ensures Once(r, ids) { OnceStays(w, r, ids); }
    match w.pcs[t]
    case Waiting =>
    case Holding =>
      if IsAmend(tasks[t]) {
        OnceMore(w, r, w.log, t);
        OnceMore(w, r, w.kept, t);
      }
    case HasRead(copy, shown, at) =>
      assert CopyInv(tasks, start, w, w.pcs[t]);
      CopyUpdates(tasks, start, t, copy, shown);
      OnceMore(w, r, w.log, t);
      OnceMore(w, r, shown, t);
    case Wrote =>
  }

  lemma CopyUpdates(tasks: seq<Task>, start: Option<string>, t: nat, copy: Option<string>, shown: seq<nat>)
    requires Updates(tasks, start) && t < |tasks| && !IsAmend(tasks[t]) && Shows(tasks, start, copy, shown)
    ensures Update(tasks[t], copy).Some?
  {
    hide Update, Serially;
  }

  lemma {:induction false} EveryWriterOnce(tasks: seq<Task>, start: Option<string>, schedule: seq<nat>)
    requires Updates(tasks, start)
    ensures var r := Run(tasks, Start(start, |tasks|), schedule);
            r.Some? ==> OnceInv(tasks, r.value) && NoAmendReads(tasks, r.value)
  {
    hide Step, Start, Updates, OnceInv, NoAmendReads, FileInv;
    var w := Start(start, |tasks|);
    assert OnceInv(tasks, w) && NoAmendReads(tasks, w) by { NobodyYet(tasks, start); }
    if schedule != [] {
      var init := schedule[..|schedule| - 1];
      EveryWriterOnce(tasks, start, init);
      EveryRun(tasks, start, init);
      var before := Run(tasks, w, init);
      if before.Some? && Step(tasks, before.value, schedule[|schedule| - 1]).Some? {
        StepWritesOnce(tasks, start, before.value, schedule[|schedule| - 1]);
      }
    }
  }

  lemma NobodyYet(tasks: seq<Task>, start: Option<string>)
    ensures OnceInv(tasks, Start(start, |tasks|)) && NoAmendReads(tasks, Start(start, |tasks|))
  {
  }

  // ---------- the finished brief ----------

  predicate AllFinished(w: World) {
    forall t :: 0 <= t < |w.pcs| ==> w.pcs[t].Finished?
  }

  /** Each of the writers is among these, once. */
  predicate EachOnce(ids: seq<nat>, n: nat) {
    Distinct(ids) && InRange(ids, n) && forall t: nat :: t < n ==> t in ids
  }

  /** A finished run: each writer wrote once, and the text on disk is that of the kept ones. */
  lemma FinishedRun(tasks: seq<Task>, start: Option<string>, schedule: seq<nat>, w: World)
    requires Updates(tasks, start) && Run(tasks, Start(start, |tasks|), schedule) == Some(w) && AllFinished(w)
    ensures EachOnce(w.log, |tasks|) && Distinct(w.kept) && Shows(tasks, start, w.file, w.kept)
    ensures EachOnce(w.kept, |tasks|) <==> Undisturbed(tasks, Start(start, |tasks|), schedule)
    ensures Undisturbed(tasks, Start(start, |tasks|), schedule) ==> w.kept == w.log
  {
    hide Updates, Start, Run, Undisturbed, Serially, Distinct;
    EveryRun(tasks, start, schedule);
    EveryWriterOnce(tasks, start, schedule);
    AtMost(w.log, |tasks|);
    if EachOnce(w.kept, |tasks|) { EnoughForAll(w.kept, |tasks|); }
  }

  predicate TimedTasks(tasks: seq<Task>) {
    forall i :: 0 <= i < |tasks| && IsAmend(tasks[i]) ==> NewlineFree(tasks[i].job.entry.time)
  }

  lemma {:induction false} LockedJobsTimed(tasks: seq<Task>)
    requires TimedTasks(tasks)
    ensures TimedJobs(LockedJobs(tasks))
  {
    hide NewlineFree;
    if tasks != [] { LockedJobsTimed(tasks[..|tasks| - 1]); }
  }

  lemma BriefUpdates(spec: BriefSpec, meta: BriefMeta, tasks: seq<Task>)
    ensures Updates(tasks, Some(Rendered(spec, meta)))
  {
    hide Update, Serially, Rendered;
    forall t: nat, ids: seq<nat> | t < |tasks| && InRange(ids, |tasks|) && !IsAmend(tasks[t])
      ensures Update(tasks[t], Serially(Some(Rendered(spec, meta)), TasksOf(tasks, ids))).Some?
    {
      AlwaysUpdates(spec, meta, TasksOf(tasks, ids), tasks[t]);
    }
  }

  /**
   * Three-writer protocol: once all have finished, each has written once, and the brief carries the state, the
   * outcome and the amendments of the kept writers. All are kept, in writing order, if and only if no other
   * write fell between a writer's read and its write.
   */
  lemma FinalBrief(spec: BriefSpec, meta: BriefMeta, tasks: seq<Task>, schedule: seq<nat>, w: World)
    requires TimedTasks(tasks)
    requires Run(tasks, Start(Some(Rendered(spec, meta)), |tasks|), schedule) == Some(w) && AllFinished(w)
    ensures EachOnce(w.log, |tasks|) && InRange(w.kept, |tasks|) && w.file.Some?
    ensures ReadsAs(w.file.value, meta, TasksOf(tasks, w.kept))
    ensures EachOnce(w.kept, |tasks|) <==>
            Undisturbed(tasks, Start(Some(Rendered(spec, meta)), |tasks|), schedule)
    ensures EachOnce(w.kept, |tasks|) ==> w.kept == w.log
  {
    hide Updates, Start, Run, Undisturbed, Serially, EachOnce, Rendered, ReadsAs, Update;
    BriefUpdates(spec, meta, tasks);
    FinishedRun(tasks, Some(Rendered(spec, meta)), schedule, w);
    var done := TasksOf(tasks, w.kept);
    assert TimedTasks(done) by {
      assert forall i :: 0 <= i < |done| ==> done[i] == tasks[w.kept[i]];
    }
    LockedJobsTimed(done);
    KeptRead(spec, meta, done);
  }

  /** What is read in a brief after these writers, one after another. */
  predicate ReadsAs(content: string, meta: BriefMeta, done: seq<Task>) {
    && Amendments(content, true) == Readings(Entries(LockedJobs(done)))
    && Get(content, "state") == Some(FmValue(FinalState(meta, done)))
    && Get(content, "worktree_outcome") == FinalOutcome(done)
  }

  lemma KeptRead(spec: BriefSpec, meta: BriefMeta, done: seq<Task>)
    requires TimedJobs(LockedJobs(done))
    ensures Serially(Some(Rendered(spec, meta)), done).Some?
    ensures ReadsAs(Serially(Some(Rendered(spec, meta)), done).value, meta, done)
  {
    hide Amendments, Get, FmValue, Readings, FinalState, FinalOutcome, Serially, Rendered;
    SeriallyReads(spec, meta, done);
  }

  // ---------- what the lock gives ----------

  predicate InLock(pc: Pc) { pc.Holding? || pc.HasRead? || pc.Wrote? }

  /** Only outcomes have been written since this copy was read. */
  predicate OnlyOutcomesSince(tasks: seq<Task>, log: seq<nat>, at: nat) {
    forall i :: at <= i < |log| ==> log[i] < |tasks| && tasks[log[i]].Outcome?
  }

  predicate LockInv(tasks: seq<Task>, w: World) {
    && |w.pcs| == |tasks|
    && (forall t :: 0 <= t < |tasks| && tasks[t].Locked? ==> (w.lock == Some(t) <==> InLock(w.pcs[t])))
    && (forall t :: 0 <= t < |tasks| && tasks[t].Outcome? ==> !w.pcs[t].Holding? && !w.pcs[t].Wrote?)
    && (forall t :: 0 <= t < |tasks| && tasks[t].Locked? && w.pcs[t].HasRead? ==>
          w.pcs[t].at <= |w.log| && OnlyOutcomesSince(tasks, w.log, w.pcs[t].at))
  }

  lemma StepKeepsLock(tasks: seq<Task>, w: World, t: nat)
    requires LockInv(tasks, w) && Step(tasks, w, t).Some?
    ensures LockInv(tasks, Step(tasks, w, t).value)
  {
    hide ApplyTask, Update;
  }

  /** The lock keeps state changes and appends apart: between the read and the write of one, only outcomes go. */
  lemma {:induction false} LockHolds(tasks: seq<Task>, start: Option<string>, schedule: seq<nat>)
    ensures var r := Run(tasks, Start(start, |tasks|), schedule);
            r.Some? ==> LockInv(tasks, r.value)
  {
    hide Step, LockInv, Start;
    var w := Start(start, |tasks|);
    assert LockInv(tasks, w) by { StartLocked(tasks, start); }
    if schedule != [] {
      var init := schedule[..|schedule| - 1];
      LockHolds(tasks, start, init);
      var before := Run(tasks, w, init);
      if before.Some? && Step(tasks, before.value, schedule[|schedule| - 1]).Some? {
        StepKeepsLock(tasks, before.value, schedule[|schedule| - 1]);
      }
    }
  }

  lemma StartLocked(tasks: seq<Task>, start: Option<string>)
    ensures LockInv(tasks, Start(start, |tasks|))
  {
  }

  predicate AllLocked(tasks: seq<Task>) {
    forall t :: 0 <= t < |tasks| ==> tasks[t].Locked?
  }

  lemma FreshUnderLock(tasks: seq<Task>, w: World, t: nat)
    requires LockInv(tasks, w) && AllLocked(tasks)
    ensures FreshStep(tasks, w, t)
  {
    hide Update;
    if t < |tasks| && w.pcs[t].HasRead? && w.pcs[t].at < |w.log| {
      SomeOutcome(tasks, w.log, w.pcs[t].at);
      assert false;
    }
  }

  lemma SomeOutcome(tasks: seq<Task>, log: seq<nat>, at: nat)
    requires OnlyOutcomesSince(tasks, log, at) && at < |log|
    ensures exists t: nat :: t < |tasks| && tasks[t].Outcome?
  {
    var t := log[at];
    assert tasks[t].Outcome?;
  }

  /** With the two locked writers alone, every run is undisturbed. */
  lemma {:induction false} LockedRunsUndisturbed(tasks: seq<Task>, start: Option<string>, schedule: seq<nat>)
    requires AllLocked(tasks)
    ensures Undisturbed(tasks, Start(start, |tasks|), schedule)
  {
    hide Step, FreshStep, LockInv, Start, AllLocked;
    if schedule != [] {
      var init := schedule[..|schedule| - 1];
      LockedRunsUndisturbed(tasks, start, init);
      LockHolds(tasks, start, init);
      var before := Run(tasks, Start(start, |tasks|), init);
      if before.Some? { FreshUnderLock(tasks, before.value, schedule[|schedule| - 1]); }
    }
  }

  // ---------- a run that loses a writer ----------

  /** The outcome is read, the other writer does all its steps, and the outcome is written. */
  function LosingSchedule(job: Job): seq<nat> {
    match job
    case Amend(_) => [1, 0, 0, 0, 1]
    case SetState(_) => [1, 0, 0, 0, 0, 1]
  }

  /** The world after the given steps, and then one more. */
  lemma OneMoreStep(tasks: seq<Task>, w: World, schedule: seq<nat>, u: World, t: nat)
    requires |w.pcs| == |u.pcs| == |tasks| && Run(tasks, w, schedule) == Some(u)
    ensures Run(tasks, w, schedule + [t]) == Step(tasks, u, t)
  {
    hide Step;
    assert (schedule + [t])[..|schedule|] == schedule;
  }

  /** The outcome has been read, and the other writer has the lock. */
  function LockedBehind(start: Option<string>): World {
    World(start, Some(0), [Holding, HasRead(start, [], 0)], [], [])
  }

  lemma ReadThenLocked(start: Option<string>, job: Job, v: string)
    ensures Run([Locked(job), Outcome(v)], Start(start, 2), [1, 0]) == Some(LockedBehind(start))
  {
    hide Run;
    var tasks, s := [Locked(job), Outcome(v)], Start(start, 2);
    var copy := HasRead(start, [], 0);
    assert Run(tasks, s, []) == Some(s) by { NoSteps(tasks, s); }
    OneMoreStep(tasks, s, [], s, 1);
    var a := World(start, None, [Waiting, copy], [], []);
    assert s.pcs[1 := copy] == a.pcs && [] + [1] == [1];
    OneMoreStep(tasks, s, [1], a, 0);
    assert a.pcs[0 := Holding] == [Holding, copy] && [1] + [0] == [1, 0];
  }

  lemma OverwritingRun(start: Option<string>, job: Job, v: string) returns (w: World)
    requires Update(Outcome(v), start).Some? && (job.SetState? ==> Update(Locked(job), start).Some?)
    ensures Run([Locked(job), Outcome(v)], Start(start, 2), LosingSchedule(job)) == Some(w)
    ensures AllFinished(w) && w.log == [0, 1] && w.kept == [1]
  {
    hide Run, Update, ApplyTask, Start;
    ReadThenLocked(start, job, v);
    match job
    case Amend(_) => w := AmendOverwritten(start, job, v);
    case SetState(_) => w := StateOverwritten(start, job, v);
  }

  lemma AmendOverwritten(start: Option<string>, job: Job, v: string) returns (w: World)
    requires Update(Outcome(v), start).Some? && job.Amend?
    requires Run([Locked(job), Outcome(v)], Start(start, 2), [1, 0]) == Some(LockedBehind(start))
    ensures Run([Locked(job), Outcome(v)], Start(start, 2), [1, 0, 0, 0, 1]) == Some(w)
    ensures AllFinished(w) && w.log == [0, 1] && w.kept == [1]
  {
    hide Run, Update, ApplyTask, Start;
    var tasks, s, b := [Locked(job), Outcome(v)], Start(start, 2), LockedBehind(start);
    OneMoreStep(tasks, s, [1, 0], b, 0);
    var c := World(ApplyTask(start, tasks[0]), Some(0), [Wrote, b.pcs[1]], [0], [0]);
    assert b.pcs[0 := Wrote] == c.pcs && b.log + [0] == [0];
    assert [1, 0] + [0] == [1, 0, 0] && [1, 0, 0] + [0, 1] == [1, 0, 0, 0, 1];
    w := Overwritten(tasks, s, [1, 0, 0], c);
  }

  lemma StateOverwritten(start: Option<string>, job: Job, v: string) returns (w: World)
    requires Update(Outcome(v), start).Some? && job.SetState? && Update(Locked(job), start).Some?
    requires Run([Locked(job), Outcome(v)], Start(start, 2), [1, 0]) == Some(LockedBehind(start))
    ensures Run([Locked(job), Outcome(v)], Start(start, 2), [1, 0, 0, 0, 0, 1]) == Some(w)
    ensures AllFinished(w) && w.log == [0, 1] && w.kept == [1]
  {
    hide Run, Update, ApplyTask, Start;
    var tasks, s, b := [Locked(job), Outcome(v)], Start(start, 2), LockedBehind(start);
    OneMoreStep(tasks, s, [1, 0], b, 0);
    var c := b.(pcs := [b.pcs[1], b.pcs[1]]);
    assert b.pcs[0 := b.pcs[1]] == c.pcs && [1, 0] + [0] == [1, 0, 0];
    OneMoreStep(tasks, s, [1, 0, 0], c, 0);
    var d := World(Update(tasks[0], start), Some(0), [Wrote, b.pcs[1]], [0], [0]);
    assert c.pcs[0 := Wrote] == d.pcs && b.log + [0] == [0];
    assert [1, 0, 0] + [0] == [1, 0, 0, 0] && [1, 0, 0, 0] + [0, 1] == [1, 0, 0, 0, 0, 1];
    w := Overwritten(tasks, s, [1, 0, 0, 0], d);
  }

  lemma NoSteps(tasks: seq<Task>, w: World)
    requires |w.pcs| == |tasks|
    ensures Run(tasks, w, []) == Some(w)
  {
  }

  /** The last two steps: the lock is released and the outcome written over what stands there. */
  lemma Overwritten(tasks: seq<Task>, s: World, schedule: seq<nat>, c: World) returns (w: World)
    requires |tasks| == |s.pcs| == 2 && tasks[1].Outcome? && Run(tasks, s, schedule) == Some(c)
    requires |c.pcs| == 2 && c.pcs[0] == Wrote && c.pcs[1].HasRead? && c.pcs[1].shown == [] && c.log == [0]
    requires Update(tasks[1], c.pcs[1].content).Some?
    ensures Run(tasks, s, schedule + [0, 1]) == Some(w) && AllFinished(w) && w.log == [0, 1] && w.kept == [1]
  {
    hide Run, Update, ApplyTask;
    OneMoreStep(tasks, s, schedule, c, 0);
    var d := c.(lock := None, pcs := [Finished, c.pcs[1]]);
    assert c.pcs[0 := Finished] == d.pcs;
    OneMoreStep(tasks, s, schedule + [0], d, 1);
    assert schedule + [0] + [1] == schedule + [0, 1];
    w := Step(tasks, d, 1).value;
  }

  /** Whatever the job, that run finishes and the brief reads as if only the outcome had been recorded. */
  lemma OutcomeOverwrites(spec: BriefSpec, meta: BriefMeta, job: Job, v: string)
    requires TimedTasks([Locked(job), Outcome(v)])
    ensures var r := Run([Locked(job), Outcome(v)], Start(Some(Rendered(spec, meta)), 2), LosingSchedule(job));
            && r.Some? && AllFinished(r.value) && r.value.log == [0, 1] && r.value.file.Some?
            && Amendments(r.value.file.value, true) == []
            && Get(r.value.file.value, STATE) == Some(FmValue(meta.state))
            && Get(r.value.file.value, OUTCOME) == Some(FmValue(v))
  {
    hide Run, Update, Rendered, Serially, Amendments, Get, FmValue, Undisturbed, Start;
    var tasks, start := [Locked(job), Outcome(v)], Some(Rendered(spec, meta));
    StartsUpdate(spec, meta, job, v);
    var w := OverwritingRun(start, job, v);
    FinalBrief(spec, meta, tasks, LosingSchedule(job), w);
    assert TasksOf(tasks, [1]) == [] + [Outcome(v)];
    OutcomeSnoc([], v);
    assert Readings([]) == [];
  }

  lemma StartsUpdate(spec: BriefSpec, meta: BriefMeta, job: Job, v: string)
    ensures Update(Outcome(v), Some(Rendered(spec, meta))).Some?
    ensures job.SetState? ==> Update(Locked(job), Some(Rendered(spec, meta))).Some?
  {
    hide Update, Rendered;
    AlwaysUpdates(spec, meta, [], Outcome(v));
    if job.SetState? { AlwaysUpdates(spec, meta, [], Locked(job)); }
  }
}
