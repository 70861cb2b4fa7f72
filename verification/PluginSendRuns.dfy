/** Every run of the plugin-send machine: conservation of messages, and what the guards add up to. */
module PluginSendRuns {
  import opened Text
  import opened PluginSend

  type Run = seq<Event>

  /** The state a run from the start reaches. */
  function After(run: Run): State {
    if run == [] then INITIAL else Step(After(run[..|run| - 1]), run[|run| - 1])
  }

  // ---------- what happened during a run ----------

  function AcceptedBy(s: State, e: Event): seq<Pending> {
    if Accepts(s, e) then [Pending(e.plugin, e.text)] else []
  }

  /** Messages accepted so far, in order. */
  function Sent(run: Run): seq<Pending> {
    if run == [] then [] else
      var before := run[..|run| - 1];
      Sent(before) + AcceptedBy(After(before), run[|run| - 1])
  }

  /** Those that went into the channel of a live turn. */
  function Delivered(run: Run): seq<Pending> {
    if run == [] then [] else
      var before, e := run[..|run| - 1], run[|run| - 1];
      Delivered(before) + if e.Send? && e.routed then AcceptedBy(After(before), e) else []
  }

  /** Those that had nowhere live to go. */
  function Queued(run: Run): seq<Pending> {
    if run == [] then [] else
      var before, e := run[..|run| - 1], run[|run| - 1];
      Queued(before) + if e.Send? && !e.routed then AcceptedBy(After(before), e) else []
  }

  /** The entries a call hands off. */
  function HandedOff(s: State, e: Event): seq<Pending> {
    if e.TakeEchoes? then s.echoes
    else if e.TakePending? && s.overflow != [] then [s.overflow[0]]
    else []
  }

  function Echoed(run: Run): seq<Pending> {
    if run == [] then [] else
      var before, e := run[..|run| - 1], run[|run| - 1];
      Echoed(before) + if e.TakeEchoes? then HandedOff(After(before), e) else []
  }

  function Started(run: Run): seq<Pending> {
    if run == [] then [] else
      var before, e := run[..|run| - 1], run[|run| - 1];
      Started(before) + if e.TakePending? then HandedOff(After(before), e) else []
  }

  function CountOf(ps: seq<Pending>, plugin: string): nat {
    if ps == [] then 0
    else CountOf(ps[..|ps| - 1], plugin) + if ps[|ps| - 1].plugin == plugin then 1 else 0
  }

  lemma RunStep(before: Run, e: Event)
    ensures var run := before + [e];
            && run[..|run| - 1] == before
            && After(run) == Step(After(before), e)
            && Sent(run) == Sent(before) + AcceptedBy(After(before), e)
  {
    var run := before + [e];
    assert run[..|run| - 1] == before;
  }

  lemma HistoryStep(before: Run, e: Event)
    ensures var run, s := before + [e], After(before);
            && Delivered(run) == Delivered(before) + (if e.Send? && e.routed then AcceptedBy(s, e) else [])
            && Queued(run) == Queued(before) + (if e.Send? && !e.routed then AcceptedBy(s, e) else [])
            && Echoed(run) == Echoed(before) + (if e.TakeEchoes? then HandedOff(s, e) else [])
            && Started(run) == Started(before) + (if e.TakePending? then HandedOff(s, e) else [])
  {
    var run := before + [e];
    assert run[..|run| - 1] == before;
  }

  // ---------- conservation ----------

  predicate OneEach(ps: seq<Pending>) {
    forall i, j :: 0 <= i < j < |ps| ==> ps[i].plugin != ps[j].plugin
  }

  /** The pending set is exactly the owners of waiting entries, and each owner has one entry. */
  predicate OnePending(s: State) {
    s.pendingPlugins == Owners(s.echoes + s.overflow) && OneEach(s.echoes + s.overflow)
  }

  predicate Accounted(run: Run, s: State) {
    && Delivered(run) == Echoed(run) + s.echoes
    && Queued(run) == Started(run) + s.overflow
    && multiset(Sent(run)) == multiset(Delivered(run)) + multiset(Queued(run))
  }

  lemma OwnersConcat(a: seq<Pending>, b: seq<Pending>)
    ensures Owners(a + b) == Owners(a) + Owners(b)
  {
    var c := a + b;
    forall o | o in Owners(a) + Owners(b) ensures o in Owners(c) {
      if o in Owners(a) {
        var i :| 0 <= i < |a| && a[i].plugin == o;
        assert c[i] == a[i];
      } else {
        var i :| 0 <= i < |b| && b[i].plugin == o;
        assert c[|a| + i] == b[i];
      }
    }
  }

  lemma OwnerIn(a: seq<Pending>, m: Pending)
    requires m in a
    ensures m.plugin in Owners(a)
  {
    var i :| 0 <= i < |a| && a[i] == m;
  }

  lemma OneEachSplit(a: seq<Pending>, b: seq<Pending>)
    requires OneEach(a + b)
    ensures OneEach(a) && OneEach(b) && Owners(a) !! Owners(b)
  {
    var c := a + b;
    assert forall i :: 0 <= i < |a| ==> c[i] == a[i];
    assert forall i :: 0 <= i < |b| ==> c[|a| + i] == b[i];
    forall o | o in Owners(a) ensures o !in Owners(b) {
      var i :| 0 <= i < |a| && a[i].plugin == o;
      forall j | 0 <= j < |b| ensures b[j].plugin != o {
        assert c[|a| + j] == b[j] && c[i] == a[i];
      }
    }
  }

  lemma OneEachAdd(a: seq<Pending>, p: Pending, b: seq<Pending>)
    requires OneEach(a + b) && p.plugin !in Owners(a + b)
    ensures OneEach(a + [p] + b) && Owners(a + [p] + b) == Owners(a + b) + {p.plugin}
  {
    var c, d := a + b, a + [p] + b;
    forall i, j | 0 <= i < j < |d| ensures d[i].plugin != d[j].plugin {
      var ci, cj := if i < |a| then i else i - 1, if j < |a| then j else j - 1;
      assert i != |a| ==> d[i] == c[ci] && c[ci].plugin in Owners(c);
      assert j != |a| ==> d[j] == c[cj] && c[cj].plugin in Owners(c);
    }
    OwnersConcat(a, b);
    OwnersConcat(a + [p], b);
    OwnersSnoc(a, p);
  }

  lemma OneEachDrop(a: seq<Pending>, p: Pending, b: seq<Pending>)
    requires OneEach(a + [p] + b)
    ensures OneEach(a + b) && Owners(a + b) == Owners(a + [p] + b) - {p.plugin}
  {
    hide OneEach, Owners;
    OneEachSplit(a + [p], b);
    OneEachSplit(a, [p]);
    OwnersConcat(a + [p], b);
    OwnersConcat(a, b);
    OwnersSnoc(a, p);
    OneEachWithout(a, p, b);
    OwnerIn([p], p);
    assert p.plugin in Owners(a + [p]);
    assert p.plugin !in Owners(a) && p.plugin !in Owners(b);
  }

  lemma OneEachWithout(a: seq<Pending>, p: Pending, b: seq<Pending>)
    requires OneEach(a + [p] + b)
    ensures OneEach(a + b)
  {
    var c, d := a + [p] + b, a + b;
    forall i, j | 0 <= i < j < |d| ensures d[i].plugin != d[j].plugin {
      var ci, cj := if i < |a| then i else i + 1, if j < |a| then j else j + 1;
      assert d[i] == c[ci] && d[j] == c[cj];
    }
  }

  lemma StepKeepsOnePending(s: State, e: Event)
    requires OnePending(s)
    ensures OnePending(Step(s, e))
  {
    hide OneEach, Owners;
    var w := s.echoes + s.overflow;
    match e
    case Send(plugin, text, routed) =>
      if Refused(s, plugin).None? {
        var p := Pending(plugin, text);
        if routed {
          OneEachAdd(s.echoes, p, s.overflow);
        } else {
          assert w + [] == w;
          OneEachAdd(w, p, []);
          assert s.echoes + (s.overflow + [p]) == w + [p] + [];
        }
      }
    case TakePending =>
      if s.overflow != [] {
        assert w == s.echoes + [s.overflow[0]] + s.overflow[1..];
        OneEachDrop(s.echoes, s.overflow[0], s.overflow[1..]);
      }
    case TakeEchoes =>
      OneEachSplit(s.echoes, s.overflow);
      OwnersConcat(s.echoes, s.overflow);
      assert [] + s.overflow == s.overflow;
    case _ =>
  }

  lemma StepKeepsAccounted(before: Run, e: Event)
    requires Accounted(before, After(before))
    ensures Accounted(before + [e], After(before + [e]))
  {
    hide After, Sent, Delivered, Queued, Echoed, Started;
    if Accepts(After(before), e) {
      AcceptKeepsAccounted(before, e);
    } else {
      OtherStepKeepsAccounted(before, e);
    }
  }

  lemma AcceptKeepsAccounted(before: Run, e: Event)
    requires Accounted(before, After(before)) && Accepts(After(before), e)
    ensures Accounted(before + [e], After(before + [e]))
  {
    hide After, Sent, Delivered, Queued, Echoed, Started;
    var s, run := After(before), before + [e];
    RunStep(before, e);
    HistoryStep(before, e);
    var added := AcceptedBy(s, e);
    AddToBoth(Sent(before), Delivered(before), Queued(before), added);
    assert Echoed(run) == Echoed(before) && Started(run) == Started(before);
    if e.routed {
      assert Queued(run) == Queued(before);
      AppendBoth(Echoed(before), s.echoes, added);
    } else {
      assert Delivered(run) == Delivered(before);
      AppendBoth(Started(before), s.overflow, added);
    }
  }

  lemma OtherStepKeepsAccounted(before: Run, e: Event)
    requires Accounted(before, After(before)) && !Accepts(After(before), e)
    ensures Accounted(before + [e], After(before + [e]))
  {
    hide After, Sent, Delivered, Queued, Echoed, Started, Refused;
    var s, run := After(before), before + [e];
    RunStep(before, e);
    HistoryStep(before, e);
    assert Sent(run) == Sent(before) && Delivered(run) == Delivered(before) && Queued(run) == Queued(before);
    if e.TakePending? && s.overflow != [] {
      assert Echoed(run) == Echoed(before);
      assert s.overflow == [s.overflow[0]] + s.overflow[1..];
      AppendBoth(Started(before), [s.overflow[0]], s.overflow[1..]);
    } else if e.TakeEchoes? {
      assert Started(run) == Started(before);
      assert Echoed(before) + s.echoes + [] == Echoed(before) + s.echoes;
    } else {
      assert Echoed(run) == Echoed(before) && Started(run) == Started(before);
    }
  }

  lemma AddToBoth(x: seq<Pending>, d: seq<Pending>, q: seq<Pending>, added: seq<Pending>)
    requires multiset(x) == multiset(d) + multiset(q)
    ensures multiset(x + added) == multiset(d + added) + multiset(q) == multiset(d) + multiset(q + added)
  {
  }

  lemma AppendBoth(a: seq<Pending>, b: seq<Pending>, added: seq<Pending>)
    ensures a + b + added == a + (b + added)
  {
  }

  /**
   * Message conservation: the pending set is exactly the owners of waiting entries, one entry each; what went
   * into channels is what was echoed plus the echoes still owed, and what was queued is what started turns plus
   * what still waits, both in order; every accepted message took exactly one of the two ways.
   */
  lemma {:induction false} MessagesConserved(run: Run)
    ensures OnePending(After(run)) && Accounted(run, After(run))
  {
    hide Step, OnePending, Accounted;
    if run == [] {
      NothingPending();
    } else {
      var before, e := run[..|run| - 1], run[|run| - 1];
      MessagesConserved(before);
      assert run == before + [e];
      StepKeepsOnePending(After(before), e);
      StepKeepsAccounted(before, e);
    }
  }

  lemma NothingPending()
    ensures OnePending(INITIAL) && Accounted([], INITIAL)
  {
    assert INITIAL.echoes + INITIAL.overflow == [];
  }

  // ---------- the session cap ----------

  /** Each plugin's counter is the number of its accepted sends, and never passes the cap. */
  lemma {:induction false} CountersAreAcceptedSends(run: Run, plugin: string)
    ensures Turns(After(run), plugin) == CountOf(Sent(run), plugin) <= MAX_PLUGIN_TURNS_PER_SESSION
  {
    if run != [] {
      var before, e := run[..|run| - 1], run[|run| - 1];
      CountersAreAcceptedSends(before, plugin);
      CountAccepted(Sent(before), After(before), e, plugin);
    }
  }

  lemma CountAccepted(sent: seq<Pending>, s: State, e: Event, plugin: string)
    ensures CountOf(sent + AcceptedBy(s, e), plugin)
         == CountOf(sent, plugin) + if Accepts(s, e) && e.plugin == plugin then 1 else 0
  {
    hide Refused;
    if Accepts(s, e) {
      assert (sent + AcceptedBy(s, e))[..|sent|] == sent;
    } else {
      assert sent + [] == sent;
    }
  }

  /** Turns each listed plugin may still cause. */
  function Budget(s: State, plugins: seq<string>): int {
    if plugins == [] then 0
    else MAX_PLUGIN_TURNS_PER_SESSION - Turns(s, plugins[0]) + Budget(s, plugins[1..])
  }

  predicate NoRepeats(ps: seq<string>) {
    forall i, j :: 0 <= i < j < |ps| ==> ps[i] != ps[j]
  }

  /** Every accepted send by a listed plugin costs exactly one unit of the common budget; nothing else does. */
  lemma {:induction false} AcceptedSendCostsOne(s: State, e: Event, plugins: seq<string>)
    requires NoRepeats(plugins)
    ensures Budget(Step(s, e), plugins) == Budget(s, plugins) - if Accepts(s, e) && e.plugin in plugins then 1 else 0
  {
    hide Refused;
    if plugins != [] {
      AcceptedSendCostsOne(s, e, plugins[1..]);
      if Accepts(s, e) { assert e.plugin in plugins <==> e.plugin == plugins[0] || e.plugin in plugins[1..]; }
    }
  }

  function SendsBy(sent: seq<Pending>, plugins: seq<string>): nat {
    if plugins == [] then 0 else CountOf(sent, plugins[0]) + SendsBy(sent, plugins[1..])
  }

  /** A run in which only these plugins exist accepts at most twenty sends for each of them. */
  lemma {:induction false} SendsAreBounded(run: Run, plugins: seq<string>)
    ensures SendsBy(Sent(run), plugins) <= MAX_PLUGIN_TURNS_PER_SESSION * |plugins|
    ensures Budget(After(run), plugins) == MAX_PLUGIN_TURNS_PER_SESSION * |plugins| - SendsBy(Sent(run), plugins)
  {
    if plugins != [] {
      CountersAreAcceptedSends(run, plugins[0]);
      SendsAreBounded(run, plugins[1..]);
    }
  }

  // ---------- a plugin's own turn ----------


  /** The origin of the running turn changes only at a turn boundary. */
  lemma {:induction false} OriginStays(a: Run, b: Run)
    requires forall k :: 0 <= k < |b| ==> !b[k].ResetTurn?
    ensures After(a + b).currentTurnOrigin == After(a).currentTurnOrigin
  {
    hide After, Sent, Refused;
    if b == [] {
      assert a + b == a;
    } else {
      var init, e := b[..|b| - 1], b[|b| - 1];
      OriginStays(a, init);
      RunStep(a + init, e);
      assert a + b == a + init + [e];
    }
  }

  /** While a turn its own message started is running, no send by the plugin is accepted. */
  lemma {:induction false} SilentInOwnTurn(a: Run, b: Run, plugin: string)
    requires After(a).currentTurnOrigin == Some(plugin)
    requires forall k :: 0 <= k < |b| ==> !b[k].ResetTurn?
    ensures CountOf(Sent(a + b), plugin) == CountOf(Sent(a), plugin)
  {
    hide After, Sent, Step, CountOf;
    if b == [] {
      assert a + b == a;
    } else {
      var init, e := b[..|b| - 1], b[|b| - 1];
      SilentInOwnTurn(a, init, plugin);
      OriginStays(a, init);
      RunStep(a + init, e);
      assert a + b == a + init + [e];
      CountAccepted(Sent(a + init), After(a + init), e, plugin);
    }
  }

  // ---------- one message at a time ----------

  predicate Waits(s: State, m: Pending) {
    m in s.echoes + s.overflow && m.plugin in s.pendingPlugins
  }

  /** A waiting message stays until some call hands off exactly it. */
  lemma {:induction false} WaitsUntilHandedOff(a: Run, b: Run, m: Pending)
    requires Waits(After(a), m)
    ensures Waits(After(a + b), m) || exists k :: 0 <= k < |b| && m in HandedOff(After(a + b[..k]), b[k])
  {
    hide After, Sent, Step, Waits, HandedOff;
    if b == [] {
      assert a + b == a;
    } else {
      var init, e := b[..|b| - 1], b[|b| - 1];
      WaitsUntilHandedOff(a, init, m);
      if Waits(After(a + init), m) {
        MessagesConserved(a + init);
        StepKeepsWaiting(After(a + init), e, m);
        RunStep(a + init, e);
        assert a + b == a + init + [e];
        assert b[..|b| - 1] == init;
      } else {
        var k :| 0 <= k < |init| && m in HandedOff(After(a + init[..k]), init[k]);
        assert init[..k] == b[..k] && init[k] == b[k];
      }
    }
  }

  lemma StepKeepsWaiting(s: State, e: Event, m: Pending)
    requires Waits(s, m) && OnePending(s)
    ensures Waits(Step(s, e), m) || m in HandedOff(s, e)
  {
    hide Refused, OneEach, Owners;
    match e
    case TakeEchoes =>
      OneEachSplit(s.echoes, s.overflow);
      if m !in s.echoes { OwnerIn(s.overflow, m); }
    case TakePending =>
      if s.overflow != [] && m != s.overflow[0] {
        var o, rest := s.overflow[0], s.overflow[1..];
        assert s.overflow == [o] + rest;
        assert s.echoes + s.overflow == s.echoes + [o] + rest;
        OneEachDrop(s.echoes, o, rest);
        OwnerIn(s.echoes + rest, m);
      }
    case _ =>
  }

  /** Between two accepted sends of one plugin, its earlier message was handed off. */
  lemma HandedOffBetweenSends(a: Run, e1: Event, b: Run, e2: Event)
    requires Accepts(After(a), e1) && Accepts(After(a + [e1] + b), e2) && e1.plugin == e2.plugin
    ensures exists k :: 0 <= k < |b|
                     && Pending(e1.plugin, e1.text) in HandedOff(After(a + [e1] + b[..k]), b[k])
  {
    hide After, HandedOff;
    var m := Pending(e1.plugin, e1.text);
    RunStep(a, e1);
    assert m in [m];
    assert Waits(After(a + [e1]), m);
    WaitsUntilHandedOff(a + [e1], b, m);
  }

  // ---------- independence ----------

  /** One plugin's send never changes whether another's would be accepted. */
  lemma SendsAreIndependent(s: State, e: Event, other: string)
    requires e.Send? && e.plugin != other
    ensures Refused(Step(s, e), other) == Refused(s, other)
  {
  }

  /** The run without its refused sends. */
  function Erase(run: Run): Run {
    if run == [] then [] else
      var before, e := run[..|run| - 1], run[|run| - 1];
      if e.Send? && !Accepts(After(before), e) then Erase(before) else Erase(before) + [e]
  }

  /** Refused sends can be erased: same state, same messages, and every remaining send is accepted. */
  lemma {:induction false} RefusedSendsErase(run: Run)
    ensures After(Erase(run)) == After(run) && Sent(Erase(run)) == Sent(run)
    ensures Echoed(Erase(run)) == Echoed(run) && Started(Erase(run)) == Started(run)
    ensures forall k :: 0 <= k < |Erase(run)| && Erase(run)[k].Send? ==> Accepts(After(Erase(run)[..k]), Erase(run)[k])
  {
    hide Refused, HandedOff, Accepts, Sent, Echoed, Started, After, AcceptedBy;
    if run != [] {
      var before, e := run[..|run| - 1], run[|run| - 1];
      assert run == before + [e];
      RefusedSendsErase(before);
      RunStep(before, e);
      HistoryStep(before, e);
      if e.Send? && !Accepts(After(before), e) {
        RefusedChangesNothing(After(before), e);
        assert Sent(run) == Sent(before) && Echoed(run) == Echoed(before) && Started(run) == Started(before);
      } else {
        KeepStep(Erase(before), before, e);
      }
    }
  }

  lemma RefusedChangesNothing(s: State, e: Event)
    requires e.Send? && !Accepts(s, e)
    ensures Step(s, e) == s && AcceptedBy(s, e) == []
  {
  }

  lemma KeepStep(kept: Run, before: Run, e: Event)
    requires After(kept) == After(before) && Sent(kept) == Sent(before)
    requires Echoed(kept) == Echoed(before) && Started(kept) == Started(before)
    requires e.Send? ==> Accepts(After(before), e)
    requires forall k :: 0 <= k < |kept| && kept[k].Send? ==> Accepts(After(kept[..k]), kept[k])
    ensures After(kept + [e]) == After(before + [e]) && Sent(kept + [e]) == Sent(before + [e])
    ensures Echoed(kept + [e]) == Echoed(before + [e]) && Started(kept + [e]) == Started(before + [e])
    ensures var r := kept + [e];
            forall k :: 0 <= k < |r| && r[k].Send? ==> Accepts(After(r[..k]), r[k])
  {
    hide Refused, HandedOff, Accepts, Sent, Echoed, Started, After, AcceptedBy;
    RunStep(before, e);
    HistoryStep(before, e);
    RunStep(kept, e);
    HistoryStep(kept, e);
    var r := kept + [e];
    forall k | 0 <= k < |r| && r[k].Send? ensures Accepts(After(r[..k]), r[k]) {
      assert r[..k] == if k < |kept| then kept[..k] else kept;
    }
  }
}
