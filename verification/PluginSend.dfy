/** Messages sent by plugins (src/plugin_send.rs): the guarded queue machine and its whole-run properties. */
module PluginSend {
  import opened Text

  const MAX_PLUGIN_TURNS_PER_SESSION: nat := 20

  datatype Pending = Pending(plugin: string, text: string)

  datatype Refusal = NotAvailable | OwnTurn | AlreadyPending | TooManyTurns

  /** The state behind the mutex; the channel itself is the environment's. */
  datatype State = State(
    installed: bool,
    pendingPlugins: set<string>,
    overflow: seq<Pending>,
    echoes: seq<Pending>,
    currentTurnOrigin: Option<string>,
    nextTurnOrigin: Option<string>,
    turnsStarted: map<string, nat>)

  const INITIAL: State := State(false, {}, [], [], None, None, map[])

  function Turns(s: State, plugin: string): nat {
    if plugin in s.turnsStarted then s.turnsStarted[plugin] else 0
  }

  /** Why a send by `plugin` would be refused now, most specific rule first. */
  function Refused(s: State, plugin: string): Option<Refusal> {
    if !s.installed then Some(NotAvailable)
    else if s.currentTurnOrigin == Some(plugin) then Some(OwnTurn)
    else if plugin in s.pendingPlugins then Some(AlreadyPending)
    else if Turns(s, plugin) >= MAX_PLUGIN_TURNS_PER_SESSION then Some(TooManyTurns)
    else None
  }

  /** One call; `routed` says whether the live channel takes the text. */
  datatype Event =
    | Install
    | Send(plugin: string, text: string, routed: bool)
    | TakePending
    | TakeEchoes
    | MarkTurnOrigin(plugin_: Option<string>)
    | ResetTurn

  predicate Accepts(s: State, e: Event) { e.Send? && Refused(s, e.plugin).None? }

  function Accept(s: State, e: Event): State
    requires e.Send?
  {
    var entry := Pending(e.plugin, e.text);
    s.(echoes := if e.routed then s.echoes + [entry] else s.echoes,
       overflow := if e.routed then s.overflow else s.overflow + [entry],
       pendingPlugins := s.pendingPlugins + {e.plugin},
       turnsStarted := s.turnsStarted[e.plugin := Turns(s, e.plugin) + 1])
  }

  function Owners(ps: seq<Pending>): set<string> {
    set i | 0 <= i < |ps| :: ps[i].plugin
  }

  function Step(s: State, e: Event): State {
    match e
    case Install => s.(installed := true)
    case Send(plugin, _, _) => if Refused(s, plugin).None? then Accept(s, e) else s
    case TakePending =>
      if s.overflow == [] then s
      else s.(overflow := s.overflow[1..],
              pendingPlugins := s.pendingPlugins - {s.overflow[0].plugin},
              nextTurnOrigin := Some(s.overflow[0].plugin))
    case TakeEchoes => s.(echoes := [], pendingPlugins := s.pendingPlugins - Owners(s.echoes))
    case MarkTurnOrigin(plugin) => s.(nextTurnOrigin := plugin)
    case ResetTurn => s.(currentTurnOrigin := s.nextTurnOrigin, nextTurnOrigin := None)
  }

  // ---------- the implementation ----------

  /** A bounded channel to the running turn. */
  class Channel {
    const capacity: nat
    var queue: seq<string>
    var receiverAlive: bool

    constructor (capacity: nat)
      ensures this.capacity == capacity && queue == [] && receiverAlive
    {
      this.capacity := capacity;
      queue := [];
      receiverAlive := true;
    }

    predicate HasRoom()
      reads this
    {
      receiverAlive && |queue| < capacity
    }

    /** Succeeds exactly when the receiver is alive and there is room. */
    method TrySend(text: string) returns (ok: bool)
      modifies this`queue
      ensures ok == old(HasRoom())
      ensures queue == if ok then old(queue) + [text] else old(queue)
    {
      ok := HasRoom();
      if ok { queue := queue + [text]; }
    }
  }

  class Sender {
    var installed: bool
    var steerTx: Channel?
    var pendingPlugins: set<string>
    var overflow: seq<Pending>
    var echoes: seq<Pending>
    var currentTurnOrigin: Option<string>
    var nextTurnOrigin: Option<string>
    var turnsStarted: map<string, nat>

    ghost function View(): State
      reads this
    {
      State(installed, pendingPlugins, overflow, echoes, currentTurnOrigin, nextTurnOrigin, turnsStarted)
    }

    ghost predicate Live()
      reads this, steerTx
    {
      steerTx != null && steerTx.HasRoom()
    }

    constructor ()
      ensures View() == INITIAL && steerTx == null
    {
      installed, steerTx := false, null;
      pendingPlugins, overflow, echoes := {}, [], [];
      currentTurnOrigin, nextTurnOrigin, turnsStarted := None, None, map[];
    }

    /** Publish or replace the channel of the current turn. */
    method Install(tx: Channel?)
      modifies this
      ensures View() == Step(old(View()), Event.Install) && steerTx == tx
    {
      installed, steerTx := true, tx;
    }

    method Send(plugin: string, text: string) returns (refusal: Option<Refusal>)
      modifies this, steerTx
      ensures steerTx == old(steerTx)
      ensures refusal == Refused(old(View()), plugin)
      ensures View() == Step(old(View()), Event.Send(plugin, text, old(Live())))
      ensures steerTx != null ==>
                steerTx.queue == old(steerTx.queue) + if refusal.None? && old(Live()) then [text] else []
    {
      if !installed {
        return Some(NotAvailable);
      }
      if currentTurnOrigin == Some(plugin) {
        return Some(OwnTurn);
      }
      if plugin in pendingPlugins {
        return Some(AlreadyPending);
      }
      var used := if plugin in turnsStarted then turnsStarted[plugin] else 0;
      if used >= MAX_PLUGIN_TURNS_PER_SESSION {
        return Some(TooManyTurns);
      }
      var entry := Pending(plugin, text);
      var routed := false;
      if steerTx != null {
        routed := steerTx.TrySend(text);
      }
      if routed {
        echoes := echoes + [entry];
      } else {
        overflow := overflow + [entry];
      }
      pendingPlugins := pendingPlugins + {plugin};
      turnsStarted := turnsStarted[plugin := used + 1];
      refusal := None;
    }

    method TakePending() returns (p: Option<Pending>)
      modifies this
      ensures View() == Step(old(View()), Event.TakePending) && steerTx == old(steerTx)
      ensures p == if old(overflow) == [] then None else Some(old(overflow)[0])
    {
      if overflow == [] {
        return None;
      }
      p := Some(overflow[0]);
      overflow := overflow[1..];
      pendingPlugins := pendingPlugins - {p.value.plugin};
      nextTurnOrigin := Some(p.value.plugin);
    }

    method TakeEchoes() returns (out: seq<Pending>)
      modifies this
      ensures View() == Step(old(View()), Event.TakeEchoes) && steerTx == old(steerTx)
      ensures out == old(echoes)
    {
      out := echoes;
      echoes := [];
      for i := 0 to |out|
        invariant pendingPlugins == old(pendingPlugins) - Owners(out[..i])
        invariant out == old(echoes) && echoes == [] && steerTx == old(steerTx)
        invariant View() == old(View()).(echoes := [], pendingPlugins := pendingPlugins)
      {
        pendingPlugins := pendingPlugins - {out[i].plugin};
        OwnersSnoc(out[..i], out[i]);
        assert out[..i + 1] == out[..i] + [out[i]];
      }
      assert out[..|out|] == out;
    }

    method MarkTurnOrigin(plugin: Option<string>)
      modifies this
      ensures View() == Step(old(View()), Event.MarkTurnOrigin(plugin)) && steerTx == old(steerTx)
    {
      nextTurnOrigin := plugin;
    }

    method ResetTurn()
      modifies this
      ensures View() == Step(old(View()), Event.ResetTurn) && steerTx == old(steerTx)
    {
      currentTurnOrigin := nextTurnOrigin;
      nextTurnOrigin := None;
    }
  }

  lemma OwnersSnoc(ps: seq<Pending>, p: Pending)
    ensures Owners(ps + [p]) == Owners(ps) + {p.plugin}
  {
    var qs := ps + [p];
    assert qs[|ps|] == p;
    forall o | o in Owners(ps) ensures o in Owners(qs) {
      var i :| 0 <= i < |ps| && ps[i].plugin == o;
      assert qs[i] == ps[i];
    }
  }
}
