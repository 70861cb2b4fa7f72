/** Whose turn is running, and which sends are accepted, told from the calls made so far (src/plugin_send.rs). */
module PluginSendTurns {
  import opened Text
  import opened PluginSend
  import opened PluginSendRuns

  // ---------- the origin of a turn ----------

  /** Staged since the last turn boundary: what was marked, or whose message was handed off, whichever came last. */
  function Staged(run: Run): Option<string> {
    if run == [] then None else
      var before := run[..|run| - 1];
      match run[|run| - 1]
      case MarkTurnOrigin(plugin) => plugin
      case ResetTurn => None
      case TakePending =>
        if Started(run) == Started(before) then Staged(before) else Some(Started(run)[|Started(run)| - 1].plugin)
      case _ => Staged(before)
  }

  /** Who started the running turn: what had been staged at the last boundary. */
  function TurnOrigin(run: Run): Option<string> {
    if run == [] then None else
      var before := run[..|run| - 1];
      if run[|run| - 1].ResetTurn? then Staged(before) else TurnOrigin(before)
  }

  /** The machine's own note of the origin is exactly that, in every run. */
  lemma {:induction false} OriginIsHistory(run: Run)
    ensures After(run).currentTurnOrigin == TurnOrigin(run) && After(run).nextTurnOrigin == Staged(run)
  {
    hide Refused, Started, HandedOff;
    if run != [] {
      var before, e := run[..|run| - 1], run[|run| - 1];
      assert run == before + [e];
      OriginIsHistory(before);
      HistoryStep(before, e);
      if e.TakePending? { HandedOffOldest(After(before)); }
    }
  }

  lemma HandedOffOldest(s: State)
    ensures HandedOff(s, TakePending) == if s.overflow == [] then [] else [s.overflow[0]]
  {
  }

  // ---------- which sends are accepted ----------

  predicate Installed(run: Run) { exists i :: 0 <= i < |run| && run[i].Install? }

  /** Messages of the plugin accepted and not handed off yet. */
  function Waiting(run: Run, plugin: string): int {
    CountOf(Sent(run), plugin) - CountOf(Echoed(run), plugin) - CountOf(Started(run), plugin)
  }

  /** Why a send would be refused now, told from what happened. */
  function Reason(run: Run, plugin: string): Option<Refusal> {
    if !Installed(run) then Some(NotAvailable)
    else if TurnOrigin(run) == Some(plugin) then Some(OwnTurn)
    else if Waiting(run, plugin) > 0 then Some(AlreadyPending)
    else if CountOf(Sent(run), plugin) >= 20 then Some(TooManyTurns)
    else None
  }

  lemma {:induction false} InstalledIsHistory(run: Run)
    ensures After(run).installed <==> Installed(run)
  {
    hide Refused;
    if run != [] {
      var before, e := run[..|run| - 1], run[|run| - 1];
      InstalledIsHistory(before);
      if Installed(before) {
        var i :| 0 <= i < |before| && before[i].Install?;
        assert run[i].Install?;
      }
      assert e.Install? ==> run[|run| - 1].Install?;
    }
  }

  lemma {:induction false} CountOfConcat(a: seq<Pending>, b: seq<Pending>, plugin: string)
    ensures CountOf(a + b, plugin) == CountOf(a, plugin) + CountOf(b, plugin)
  {
    if b == [] {
      assert a + b == a;
    } else {
      CountOfConcat(a, b[..|b| - 1], plugin);
      assert (a + b)[..|a + b| - 1] == a + b[..|b| - 1];
    }
  }

  /** Every accepted message of a plugin took one of the two ways. */
  lemma {:induction false} SentBothWays(run: Run, plugin: string)
    ensures CountOf(Sent(run), plugin) == CountOf(Delivered(run), plugin) + CountOf(Queued(run), plugin)
  {
    hide After, AcceptedBy, CountOf, Sent, Delivered, Queued;
    NoneCounted(plugin);
    if run == [] {
      NothingSent();
    } else {
      var before, e := run[..|run| - 1], run[|run| - 1];
      assert run == before + [e];
      SentBothWays(before, plugin);
      RunStep(before, e);
      HistoryStep(before, e);
      var added := AcceptedBy(After(before), e);
      assert !e.Send? ==> added == [] by { OnlySends(After(before), e); }
      CountOfConcat(Sent(before), added, plugin);
      CountOfConcat(Delivered(before), added, plugin);
      CountOfConcat(Queued(before), added, plugin);
      CountOfConcat(Delivered(before), [], plugin);
      CountOfConcat(Queued(before), [], plugin);
    }
  }

  lemma OnlySends(s: State, e: Event)
    ensures !e.Send? ==> AcceptedBy(s, e) == []
  {
  }

  lemma NothingSent()
    ensures Sent([]) == [] && Delivered([]) == [] && Queued([]) == []
  {
  }

  lemma NoneCounted(plugin: string)
    ensures CountOf([], plugin) == 0
  {
  }

  lemma {:induction false} CountWhenDistinct(ps: seq<Pending>, plugin: string)
    requires OneEach(ps)
    ensures CountOf(ps, plugin) == if plugin in Owners(ps) then 1 else 0
  {
    if ps != [] {
      var n := |ps| - 1;
      CountWhenDistinct(ps[..n], plugin);
      assert ps == ps[..n] + [ps[n]];
      OwnersSnoc(ps[..n], ps[n]);
      assert ps[n].plugin !in Owners(ps[..n]);
    }
  }

  /** A plugin is marked as pending exactly while one accepted message of it waits. */
  lemma WaitingIsPending(run: Run, plugin: string)
    ensures Waiting(run, plugin) == if plugin in After(run).pendingPlugins then 1 else 0
  {
    hide After, Sent, Delivered, Queued, Echoed, Started, CountOf, Owners, OneEach;
    MessagesConserved(run);
    SentBothWays(run, plugin);
    var s := After(run);
    CountOfConcat(Echoed(run), s.echoes, plugin);
    CountOfConcat(Started(run), s.overflow, plugin);
    CountOfConcat(s.echoes, s.overflow, plugin);
    CountWhenDistinct(s.echoes + s.overflow, plugin);
  }

  /** In every run a send is refused for exactly the first reason the history gives, and accepted when there is none. */
  lemma RefusedExactly(run: Run, plugin: string)
    ensures Refused(After(run), plugin) == Reason(run, plugin)
  {
    hide After, Sent, Echoed, Started, CountOf, Installed, TurnOrigin, Waiting;
    InstalledIsHistory(run);
    OriginIsHistory(run);
    WaitingIsPending(run, plugin);
    CountersAreAcceptedSends(run, plugin);
  }

  // ---------- a plugin's own turn ----------

  /** Nothing here stages an origin or begins a turn. */
  predicate Quiet(run: Run) {
    forall k :: 0 <= k < |run| ==> run[k].Install? || run[k].Send? || run[k].TakeEchoes?
  }

  lemma {:induction false} StagedStays(a: Run, b: Run)
    requires Quiet(b)
    ensures Staged(a + b) == Staged(a)
  {
    hide Started;
    if b == [] {
      assert a + b == a;
    } else {
      var init, e := b[..|b| - 1], b[|b| - 1];
      StagedStays(a, init);
      assert (a + b)[..|a + b| - 1] == a + init && (a + b)[|a + b| - 1] == e;
    }
  }

  /** The message that the next hand-off starts a turn with: the oldest queued one that has not started one yet. */
  function NextUp(run: Run): Option<Pending> {
    if |Started(run)| < |Queued(run)| then Some(Queued(run)[|Started(run)|]) else None
  }

  lemma HandOffStarts(a: Run)
    ensures Started(a + [TakePending]) == Started(a) + if NextUp(a).Some? then [NextUp(a).value] else []
  {
    hide After, Sent, Delivered, Queued, Echoed, Started, OneEach, Owners;
    MessagesConserved(a);
    HistoryStep(a, TakePending);
    HandedOffOldest(After(a));
  }

  /**
   * A turn started by a plugin's message is that plugin's own: after the hand-off and the next boundary it is the
   * origin, and none of its sends is accepted until the boundary after that.
   */
  lemma SilentAfterHandOff(a: Run, b: Run, c: Run, m: Pending)
    requires NextUp(a) == Some(m) && Quiet(b)
    requires forall k :: 0 <= k < |c| ==> !c[k].ResetTurn?
    ensures var turn := a + [TakePending] + b + [ResetTurn];
            && Started(a + [TakePending]) == Started(a) + [m]
            && TurnOrigin(turn) == Some(m.plugin)
            && CountOf(Sent(turn + c), m.plugin) == CountOf(Sent(turn), m.plugin)
  {
    hide After, Sent, Started, CountOf, NextUp, Quiet;
    var hand := a + [TakePending];
    HandOffStarts(a);
    assert hand[..|hand| - 1] == a;
    assert Staged(hand) == Some(m.plugin);
    StagedStays(hand, b);
    var turn := hand + b + [ResetTurn];
    assert turn[..|turn| - 1] == hand + b;
    OriginIsHistory(turn);
    SilentInOwnTurn(turn, c, m.plugin);
  }

  /** A human's turn is nobody's: marked so, or with nothing staged since the boundary before. */
  lemma HumanTurnIsNobodys(a: Run, b: Run)
    requires Quiet(b)
    ensures TurnOrigin(a + [MarkTurnOrigin(None)] + b + [ResetTurn]) == None
    ensures TurnOrigin(a + [ResetTurn] + b + [ResetTurn]) == None
  {
    hide Quiet, Started;
    var mark, reset := a + [MarkTurnOrigin(None)], a + [ResetTurn];
    assert mark[..|mark| - 1] == a && reset[..|reset| - 1] == a;
    StagedStays(mark, b);
    StagedStays(reset, b);
    var x, y := mark + b + [ResetTurn], reset + b + [ResetTurn];
    assert x[..|x| - 1] == mark + b && y[..|y| - 1] == reset + b;
  }
}
