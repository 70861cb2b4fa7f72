/**
 * Numbering as messages to an agent do it: count the amendments, then append, with no lock around the two
 * (src/tool/agent_ctl.rs).
 */
module AmendmentNumbers {
  import opened Text
  import opened Brief
  import opened BriefRoundTrip
  import opened AmendmentText
  import opened AmendmentFile

  const LIMIT: nat := 0x1_0000_0000

  /** The number of amendments, cut to 32 bits, plus one. */
  function CountedNumber(content: string): u32 {
    (|Amendments(content, true)| + 1) % LIMIT
  }

  /** Both ways of numbering agree on numbered files up to the limit, and at every wrap-around of the count. */
  lemma CountAgreesExactly(head: seq<string>, notes: seq<Note>)
    requires IsHead(head) && TimedNotes(notes)
    ensures var file := File(head, Numbered(notes));
            CountedNumber(file) == NextAmendmentNumber(file) <==>
            |notes| < LIMIT - 1 || (|notes| + 1) % LIMIT == LIMIT - 1
  {
    hide IsHead, File, Amendments, Recovered;
    AmendmentRoundTrip(head, Numbered(notes), true);
    if notes != [] { MaxOfNumbered(notes); }
  }

  // ---------- counting and appending as steps ----------

  datatype Pc = Idle | Counted(number: u32, at: nat) | Done

  /** The file, the progress of each sender, and the entries appended so far. */
  datatype World = World(file: string, pcs: seq<Pc>, entries: seq<Entry>)

  function Start(head: seq<string>, past: seq<Note>, n: nat): (w: World)
    ensures |w.pcs| == n
  {
    World(File(head, Numbered(past)), seq(n, _ => Idle), Numbered(past))
  }

  /** Sender `t` counts, and at its next turn appends with the number it got. */
  function Step(notes: seq<Note>, w: World, t: nat): (r: Option<World>)
    requires |w.pcs| == |notes|
    ensures r.Some? ==> |r.value.pcs| == |notes|
  {
    if t >= |notes| then None else
      match w.pcs[t]
      case Idle => Some(w.(pcs := w.pcs[t := Counted(CountedNumber(w.file), |w.entries|)]))
      case Counted(number, _) =>
        var e := Entry(number, notes[t].time, notes[t].text);
        Some(World(w.file + Chunk(e), w.pcs[t := Done], w.entries + [e]))
      case Done => None
  }

  function Run(notes: seq<Note>, w: World, schedule: seq<nat>): (r: Option<World>)
    requires |w.pcs| == |notes|
    ensures r.Some? ==> |r.value.pcs| == |notes|
  {
    if schedule == [] then Some(w) else
      var before := Run(notes, w, schedule[..|schedule| - 1]);
      if before.None? then None else Step(notes, before.value, schedule[|schedule| - 1])
  }

  /** Nothing has been appended since this sender counted. */
  predicate FreshStep(w: World, t: nat) {
    t < |w.pcs| && w.pcs[t].Counted? ==> w.pcs[t].at == |w.entries|
  }

  /** In the whole run no append falls between another sender's count and its append. */
  predicate Undisturbed(notes: seq<Note>, w: World, schedule: seq<nat>)
    requires |w.pcs| == |notes|
  {
    schedule != [] ==>
      var init := schedule[..|schedule| - 1];
      && Undisturbed(notes, w, init)
      && (Run(notes, w, init).Some? ==> FreshStep(Run(notes, w, init).value, schedule[|schedule| - 1]))
  }

  predicate InOrder(es: seq<Entry>) {
    forall p :: 0 <= p < |es| ==> es[p].number == p + 1
  }

  /** No number is ahead of its place, nor below those there were at the start. */
  predicate Behind(es: seq<Entry>, m: nat) {
    && m <= |es| && InOrder(es[..m])
    && forall p :: m <= p < |es| ==> m < es[p].number <= p + 1
  }

  predicate DistinctNumbers(ams: seq<Amendment>) {
    forall i, j :: 0 <= i < j < |ams| ==> ams[i].number != ams[j].number
  }

  predicate CountInv(w: World, t: nat, m: nat) {
    t < |w.pcs| && w.pcs[t].Counted? ==> w.pcs[t].number == w.pcs[t].at + 1 && m <= w.pcs[t].at <= |w.entries|
  }

  /** What every step keeps below the limit; `clean` says whether the run was undisturbed. */
  predicate Inv(head: seq<string>, m: nat, w: World, clean: bool) {
    && Timed(w.entries) && w.file == File(head, w.entries) && Behind(w.entries, m)
    && (clean <==> InOrder(w.entries))
    && forall t :: 0 <= t < |w.pcs| ==> CountInv(w, t, m)
  }

  lemma OneMoreEntry(head: seq<string>, es: seq<Entry>, e: Entry)
    ensures File(head, es) + Chunk(e) == File(head, es + [e])
  {
    hide Unlines, Chunk;
    assert (es + [e])[..|es|] == es;
    assert Unlines(head) + Chunks(es) + Chunk(e) == Unlines(head) + (Chunks(es) + Chunk(e));
  }

  lemma CountIsNext(head: seq<string>, es: seq<Entry>)
    requires IsHead(head) && Timed(es) && |es| < LIMIT - 1
    ensures CountedNumber(File(head, es)) == |es| + 1
  {
    hide IsHead, Timed, File, Amendments;
    AmendmentRoundTrip(head, es, true);
  }

  lemma StillBehind(es: seq<Entry>, m: nat, e: Entry)
    requires Behind(es, m) && m < e.number <= |es| + 1
    ensures Behind(es + [e], m)
    ensures InOrder(es + [e]) <==> InOrder(es) && e.number == |es| + 1
  {
    assert (es + [e])[..m] == es[..m];
    assert (es + [e])[|es|] == e && forall p :: 0 <= p < |es| ==> (es + [e])[p] == es[p];
  }

  lemma StepKeepsInv(head: seq<string>, m: nat, notes: seq<Note>, w: World, t: nat, clean: bool)
    requires IsHead(head) && TimedNotes(notes) && |w.pcs| == |notes| && Inv(head, m, w, clean)
    requires |w.entries| < LIMIT - 1 && Step(notes, w, t).Some?
    ensures Inv(head, m, Step(notes, w, t).value, clean && FreshStep(w, t))
  {
    hide IsHead, File, Chunk, CountedNumber, InOrder, Behind, NewlineFree;
    var r := Step(notes, w, t).value;
    CountIsNext(head, w.entries);
    assert m <= |w.entries| by { BehindLength(w.entries, m); }
    assert CountInv(w, t, m);
    if w.pcs[t].Counted? {
      var e := Entry(w.pcs[t].number, notes[t].time, notes[t].text);
      OneMoreEntry(head, w.entries, e);
      StillBehind(w.entries, m, e);
    }
    forall i | 0 <= i < |r.pcs| ensures CountInv(r, i, m) {
      assert CountInv(w, i, m);
    }
  }

  lemma BehindLength(es: seq<Entry>, m: nat)
    requires Behind(es, m)
    ensures m <= |es|
  {
  }

  lemma EntriesGrow(notes: seq<Note>, w: World, t: nat)
    requires |w.pcs| == |notes| && Step(notes, w, t).Some?
    ensures |w.entries| <= |Step(notes, w, t).value.entries|
  {
  }

  lemma {:induction false} EveryRun(head: seq<string>, past: seq<Note>, notes: seq<Note>, schedule: seq<nat>)
    requires IsHead(head) && TimedNotes(past) && TimedNotes(notes) && |past| < LIMIT - 1
    ensures var r := Run(notes, Start(head, past, |notes|), schedule);
            r.Some? && |r.value.entries| < LIMIT - 1 ==>
              Inv(head, |past|, r.value, Undisturbed(notes, Start(head, past, |notes|), schedule))
  {
    hide IsHead, TimedNotes, Step, FreshStep, Inv, Start;
    var w := Start(head, past, |notes|);
    if schedule == [] {
      StartInv(head, past, |notes|);
    } else {
      var init, t := schedule[..|schedule| - 1], schedule[|schedule| - 1];
      EveryRun(head, past, notes, init);
      var before := Run(notes, w, init);
      if before.Some? && Step(notes, before.value, t).Some? {
        EntriesGrow(notes, before.value, t);
        if |Step(notes, before.value, t).value.entries| < LIMIT - 1 {
          StepKeepsInv(head, |past|, notes, before.value, t, Undisturbed(notes, w, init));
        }
      }
    }
  }

  lemma StartInv(head: seq<string>, past: seq<Note>, n: nat)
    requires TimedNotes(past) && |past| < LIMIT - 1
    ensures Inv(head, |past|, Start(head, past, n), true)
  {
    hide File, NewlineFree;
    assert Numbered(past)[..|past|] == Numbered(past);
  }

  // ---------- when numbers stay distinct ----------

  lemma TakenNumber(es: seq<Entry>)
    requires es != [] && InOrder(es[..|es| - 1]) && 1 <= es[|es| - 1].number < |es|
    ensures !DistinctNumbers(Readings(es))
  {
    hide Recovered;
    var v := es[|es| - 1].number;
    assert es[..|es| - 1][v - 1] == es[v - 1];
    assert Readings(es)[v - 1].number == Readings(es)[|es| - 1].number;
  }

  /** Numbers that are never ahead of their places are distinct only when each is at its place. */
  lemma {:induction false} DistinctIsInOrder(es: seq<Entry>, m: nat)
    requires Behind(es, m)
    ensures DistinctNumbers(Readings(es)) <==> InOrder(es)
  {
    hide Recovered;
    if |es| == m {
      assert es[..m] == es;
    } else {
      var n := |es| - 1;
      var init := es[..n];
      assert init[..m] == es[..m];
      DistinctIsInOrder(init, m);
      assert Readings(es)[..n] == Readings(init);
      if DistinctNumbers(Readings(es)) {
        assert forall p :: 0 <= p < n ==> Readings(init)[p] == Readings(es)[p];
        assert InOrder(init);
        if es[n].number <= n { TakenNumber(es); }
        assert es == init + [es[n]];
      }
      if InOrder(es) {
        assert forall p :: 0 <= p < |es| ==> Readings(es)[p].number == p + 1;
      }
    }
  }

  /**
   * Whatever the schedule, below the limit the file holds every appended text under the number its sender got;
   * the numbers in the file are distinct, and then run upward, if and only if no append fell between another
   * sender's count and its append.
   */
  lemma NumbersDistinctExactly(
      head: seq<string>, past: seq<Note>, notes: seq<Note>, schedule: seq<nat>, w: World)
    requires IsHead(head) && TimedNotes(past) && TimedNotes(notes) && |past| < LIMIT - 1 && |w.entries| < LIMIT - 1
    requires Run(notes, Start(head, past, |notes|), schedule) == Some(w)
    ensures w.file == File(head, w.entries) && Timed(w.entries) && Behind(w.entries, |past|)
    ensures Amendments(w.file, true) == Readings(w.entries)
    ensures DistinctNumbers(Amendments(w.file, true)) <==> Undisturbed(notes, Start(head, past, |notes|), schedule)
    ensures DistinctNumbers(Amendments(w.file, true)) <==> InOrder(w.entries)
  {
    hide IsHead, TimedNotes, Start, Run, Undisturbed, Amendments, DistinctNumbers, InOrder, Behind, Timed, File;
    EveryRun(head, past, notes, schedule);
    AmendmentRoundTrip(head, w.entries, true);
    DistinctIsInOrder(w.entries, |past|);
  }

  /** Two senders that count before either appends give their amendments one number. */
  lemma SharedNumber(head: seq<string>, past: seq<Note>, a: Note, b: Note)
    requires IsHead(head) && TimedNotes(past) && |past| < LIMIT - 1
    ensures var r := Run([a, b], Start(head, past, 2), [0, 1, 0, 1]);
            var n := |past| + 1;
            && r.Some?
            && r.value.entries == Numbered(past) + [Entry(n, a.time, a.text), Entry(n, b.time, b.text)]
  {
    hide IsHead, File, Chunk, CountedNumber, Run, Numbered;
    var notes, es, n := [a, b], Numbered(past), |past| + 1;
    var file := File(head, es);
    assert Timed(es) by { NumberedTimed(past); }
    CountIsNext(head, es);
    var ea, eb := Entry(n, a.time, a.text), Entry(n, b.time, b.text);
    var c := Counted(n, |past|);
    var s := World(file, [Idle, Idle], es);
    assert Start(head, past, 2).pcs == s.pcs;
    assert Run(notes, s, []) == Some(s) by { NoSteps(notes, s); }
    OneMoreStep(notes, s, [], s, 0);
    assert [Idle, Idle][0 := c] == [c, Idle] && [] + [0] == [0];
    OneMoreStep(notes, s, [0], World(file, [c, Idle], es), 1);
    assert [c, Idle][1 := c] == [c, c] && [0] + [1] == [0, 1];
    OneMoreStep(notes, s, [0, 1], World(file, [c, c], es), 0);
    assert [c, c][0 := Done] == [Done, c] && [0, 1] + [0] == [0, 1, 0];
    OneMoreStep(notes, s, [0, 1, 0], World(file + Chunk(ea), [Done, c], es + [ea]), 1);
    assert [0, 1, 0] + [1] == [0, 1, 0, 1] && es + [ea] + [eb] == es + [ea, eb];
  }

  lemma NumberedTimed(notes: seq<Note>)
    requires TimedNotes(notes)
    ensures Timed(Numbered(notes))
  {
  }

  lemma NoSteps(notes: seq<Note>, w: World)
    requires |w.pcs| == |notes|
    ensures Run(notes, w, []) == Some(w)
  {
  }

  lemma OneMoreStep(notes: seq<Note>, w: World, schedule: seq<nat>, u: World, t: nat)
    requires |w.pcs| == |u.pcs| == |notes| && Run(notes, w, schedule) == Some(u)
    ensures Run(notes, w, schedule + [t]) == Step(notes, u, t)
  {
    hide Step;
    assert (schedule + [t])[..|schedule|] == schedule;
  }
}
