/** Loading extensions at startup and reloading them into a live agent (src/agent/build.rs). */
module Reload {
  import opened Text
  import opened Sequences
  import opened ToolRegistry
  import opened Subscribers
  import Commands
  import PluginContext

  datatype Grant = Grant(plugin: string, path: string, tokens: seq<string>)

  /** What loading the configured plugins gives: one grant row for each plugin that loaded. */
  datatype Summary = Summary(
    tools: seq<Tool>,
    commands: seq<Commands.Command>,
    subscribers: seq<Subscriber>,
    grants: seq<Grant>,
    failed: seq<string>,
    contextHolders: seq<string>)

  function SetOf(names: seq<string>): set<string> { set n | n in names }

  function Loaded(s: Summary): set<string> { set g | g in s.grants :: g.plugin }

  /** Plugins with a tool registered now that the configuration no longer names. */
  function Retired(tools: Tools, s: Summary): set<string> { PluginNames(tools) - Loaded(s) - SetOf(s.failed) }

  function KeptCommands(cs: seq<Commands.Command>, failed: seq<string>): seq<Commands.Command> {
    Filter(cs, (c: Commands.Command) => c.plugin in failed)
  }

  function KeptSubscribers(subs: seq<Subscriber>, failed: seq<string>): seq<Subscriber> {
    Filter(subs, (s: Subscriber) => s.plugin in failed)
  }

  function KeptGrants(gs: seq<Grant>, failed: seq<string>): seq<Grant> {
    Filter(gs, (g: Grant) => g.plugin in failed)
  }

  /** By plugin name. */
  predicate NotAfter(a: Grant, b: Grant) { !PluginContext.Before(b.plugin, a.plugin) }

  function SortRows(gs: seq<Grant>): seq<Grant> { Sort(gs, NotAfter) }

  // ---------- the state after a reload ----------

  function ToolsAfter(tools: Tools, allow: Option<set<string>>, s: Summary): Tools {
    RegisterAll(Without(tools, Loaded(s) + Retired(tools, s)), allow, s.tools)
  }

  function CommandsAfter(cs: seq<Commands.Command>, s: Summary): seq<Commands.Command> {
    Commands.Admitted(s.commands + KeptCommands(cs, s.failed))
  }

  function SubscribersAfter(table: Table, order: seq<string>, s: Summary): seq<Subscriber> {
    s.subscribers + KeptSubscribers(SharedIn(table, order), s.failed)
  }

  function GrantsAfter(gs: seq<Grant>, s: Summary): seq<Grant> {
    SortRows(s.grants + KeptGrants(gs, s.failed))
  }

  /** The plugins whose context contribution a reload takes away. */
  function Dropped(tools: Tools, s: Summary): set<string> {
    Retired(tools, s) + (Loaded(s) - SetOf(s.contextHolders))
  }

  // ---------- the two ways in ----------

  method RegisterEach(registry: Registry, ts: seq<Tool>)
    modifies registry
    ensures registry.tools == RegisterAll(old(registry.tools), registry.allow, ts)
  {
    for i := 0 to |ts|
      invariant registry.tools == RegisterAll(old(registry.tools), registry.allow, ts[..i])
    {
      assert ts[..i + 1][..i] == ts[..i];
      var collision := registry.RegisterExternal(ts[i]);
    }
    assert ts[..|ts|] == ts;
  }

  /** Startup: everything the plugins offer goes onto the registry that is there. */
  method LoadExtensions(registry: Registry, s: Summary)
    returns (commands: seq<Commands.Command>, subscribers: Table, grants: seq<Grant>)
    modifies registry
    ensures registry.tools == RegisterAll(old(registry.tools), registry.allow, s.tools)
    ensures commands == Commands.Admitted(s.commands)
    ensures Indexes(subscribers, s.subscribers)
    ensures grants == s.grants
  {
    RegisterEach(registry, s.tools);
    var diagnostics;
    commands, diagnostics := Commands.ResolveCommands(s.commands);
    subscribers := FromShared(s.subscribers);
    grants := s.grants;
  }

  class Agent {
    const registry: Registry
    const context: PluginContext.Contributions
    var commands: seq<Commands.Command>
    var subscribers: Table
    var grants: seq<Grant>

    constructor (registry: Registry, context: PluginContext.Contributions, s: Summary)
      modifies registry
      ensures this.registry == registry && this.context == context
      ensures registry.tools == RegisterAll(old(registry.tools), registry.allow, s.tools)
      ensures commands == Commands.Admitted(s.commands)
      ensures Indexes(subscribers, s.subscribers)
      ensures grants == s.grants
    {
      this.registry, this.context := registry, context;
      var cs, subs, gs := LoadExtensions(registry, s);
      commands, subscribers, grants := cs, subs, gs;
    }

    /** `order` is the order in which the hash map of subscribers gives its events. */
    method ReloadExtensions(s: Summary, order: seq<string>) returns (dropped: set<string>)
      requires PluginContext.SortedByName(context.entries)
      modifies this, registry, context
      ensures registry.tools == ToolsAfter(old(registry.tools), registry.allow, s)
      ensures commands == CommandsAfter(old(commands), s)
      ensures Indexes(subscribers, SubscribersAfter(old(subscribers), order, s))
      ensures grants == GrantsAfter(old(grants), s)
      ensures PluginContext.SortedByName(context.entries)
      ensures forall p :: PluginContext.Lookup(context.entries, p) ==
                          if p in Dropped(old(registry.tools), s) then None
                          else PluginContext.Lookup(old(context.entries), p)
      ensures forall p :: p in dropped <==>
                          p in Dropped(old(registry.tools), s) && PluginContext.Lookup(old(context.entries), p).Some?
    {
      hide PluginContext.SortedByName, PluginContext.Lookup, PluginContext.SetStep;
      hide Commands.Admitted, Commands.Diagnostics, Filter, SharedIn, ListFor, RegisterAll, SortRows, RegisterOne;
      var loaded := Loaded(s);
      var retired := Retired(registry.tools, s);
      Unregister(loaded + retired);
      RegisterEach(registry, s.tools);

      var candidates := s.commands + KeptCommands(commands, s.failed);
      var resolved, diagnostics := Commands.ResolveCommands(candidates);
      commands := resolved;

      var shared := Shared(subscribers, order);
      subscribers := FromShared(s.subscribers + KeptSubscribers(shared, s.failed));

      grants := SortRows(s.grants + KeptGrants(grants, s.failed));

      dropped := DropContributions(retired + (loaded - SetOf(s.contextHolders)));
    }

    method Unregister(plugins: set<string>)
      modifies registry
      ensures registry.tools == Without(old(registry.tools), plugins)
    {
      var rest := plugins;
      assert old(registry.tools) == Without(old(registry.tools), {});
      while rest != {}
        invariant rest <= plugins
        invariant registry.tools == Without(old(registry.tools), plugins - rest)
      {
        var p :| p in rest;
        registry.UnregisterPlugin(p);
        WithoutTwice(old(registry.tools), plugins - rest, {p});
        assert plugins - rest + {p} == plugins - (rest - {p});
        rest := rest - {p};
      }
      assert plugins - {} == plugins;
    }

    method DropContributions(plugins: set<string>) returns (dropped: set<string>)
      requires PluginContext.SortedByName(context.entries)
      modifies context
      ensures PluginContext.SortedByName(context.entries)
      ensures forall p :: PluginContext.Lookup(context.entries, p) ==
                          if p in plugins then None else PluginContext.Lookup(old(context.entries), p)
      ensures forall p :: p in dropped <==> p in plugins && PluginContext.Lookup(old(context.entries), p).Some?
    {
      hide PluginContext.SortedByName, PluginContext.Lookup, PluginContext.SetStep;
      var rest := plugins;
      dropped := {};
      while rest != {}
        invariant rest <= plugins
        invariant PluginContext.SortedByName(context.entries)
        invariant forall p :: PluginContext.Lookup(context.entries, p) ==
                              if p in plugins - rest then None else PluginContext.Lookup(old(context.entries), p)
        invariant forall p :: p in dropped <==>
                              p in plugins - rest && PluginContext.Lookup(old(context.entries), p).Some?
      {
        var p :| p in rest;
        var changed := context.Set(p, "");
        if changed == Some(true) {
          dropped := dropped + {p};
        }
        rest := rest - {p};
      }
    }
  }
}
