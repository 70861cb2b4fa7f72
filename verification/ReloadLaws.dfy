/** A reload against a cold start, and what a failed plugin keeps (src/agent/build.rs). */
module ReloadLaws {
  import opened Text
  import opened Sequences
  import opened Utf8
  import opened ToolRegistry
  import opened Subscribers
  import opened Reload
  import Commands
  import PluginContext

  // ---------- tools ----------

  /** A plugin's tool stays where its plugin failed and no other instance of it loaded. */
  predicate Survives(t: Tool, s: Summary) {
    t.source.Plugin? ==> t.source.name in s.failed && t.source.name !in Loaded(s)
  }

  lemma ToolsAfterAt(tools: Tools, allow: Option<set<string>>, s: Summary, name: string)
    ensures At(ToolsAfter(tools, allow, s), name) ==
            if name in tools && Survives(tools[name], s) then Some(tools[name])
            else if Allows(allow, name) then FirstNamed(s.tools, name)
            else None
  {
    hide Allows, FirstNamed, RegisterAll;
    var base := Without(tools, Loaded(s) + Retired(tools, s));
    RegisteredAt(base, allow, s.tools, name);
    if name in tools && tools[name].source.Plugin? {
      assert tools[name].source.name in PluginNames(tools);
    }
  }

  /** Which of the tools registered before a reload are still there after it. */
  lemma ToolSurvivesExactly(tools: Tools, allow: Option<set<string>>, s: Summary, name: string)
    requires name in tools && tools[name] !in s.tools
    ensures At(ToolsAfter(tools, allow, s), name) == Some(tools[name]) <==> Survives(tools[name], s)
  {
    hide Allows, FirstNamed, ToolsAfter, Survives;
    ToolsAfterAt(tools, allow, s, name);
    FirstNamedIsMember(s.tools, name);
  }

  /** No tool is left of a plugin that neither failed nor brought any. */
  lemma VanishedToolsGone(tools: Tools, allow: Option<set<string>>, s: Summary, plugin: string)
    requires plugin !in s.failed && forall t :: t in s.tools ==> !OwnedBy(t, {plugin})
    ensures plugin !in PluginNames(ToolsAfter(tools, allow, s))
  {
    hide Allows, FirstNamed, ToolsAfter;
    var after := ToolsAfter(tools, allow, s);
    forall name | name in after ensures !OwnedBy(after[name], {plugin}) {
      ToolsAfterAt(tools, allow, s, name);
      FirstNamedIsMember(s.tools, name);
    }
  }

  function Builtins(tools: Tools): Tools {
    map n | n in tools && tools[n].source.Builtin? :: tools[n]
  }

  predicate HoldsMcp(tools: Tools, name: string) { name in tools && tools[name].source.Mcp? }

  /** With no failure the tools are those of a cold start on the built-ins, MCP names aside. */
  lemma ToolsLikeColdStart(tools: Tools, allow: Option<set<string>>, s: Summary, name: string)
    requires s.failed == []
    ensures At(ToolsAfter(tools, allow, s), name) ==
            if HoldsMcp(tools, name) then Some(tools[name])
            else At(RegisterAll(Builtins(tools), allow, s.tools), name)
  {
    hide Allows, FirstNamed, ToolsAfter, RegisterAll;
    ToolsAfterAt(tools, allow, s, name);
    RegisteredAt(Builtins(tools), allow, s.tools, name);
  }

  predicate FromPlugins(ts: seq<Tool>) {
    forall t :: t in ts ==> t.source.Plugin?
  }

  function NonPlugins(tools: Tools): Tools {
    map n | n in tools && !tools[n].source.Plugin? :: tools[n]
  }

  /** A reload never touches a built-in or an MCP tool, and never adds one. */
  lemma NonPluginsUntouched(tools: Tools, allow: Option<set<string>>, s: Summary)
    requires FromPlugins(s.tools)
    ensures NonPlugins(ToolsAfter(tools, allow, s)) == NonPlugins(tools)
  {
    hide Allows, FirstNamed, ToolsAfter;
    var after := ToolsAfter(tools, allow, s);
    forall name ensures At(NonPlugins(after), name) == At(NonPlugins(tools), name) {
      ToolsAfterAt(tools, allow, s, name);
      FirstNamedIsMember(s.tools, name);
    }
    SameAt(NonPlugins(after), NonPlugins(tools));
  }

  lemma SameAt(a: Tools, b: Tools)
    requires forall name :: At(a, name) == At(b, name)
    ensures a == b
  {
    forall name ensures name in a <==> name in b {
      assert At(a, name) == At(b, name);
    }
    forall name | name in a ensures a[name] == b[name] {
      assert At(a, name) == At(b, name);
    }
  }

  // ---------- commands ----------

  lemma {:induction false} UsableConcat(a: seq<Commands.Command>, b: seq<Commands.Command>)
    ensures Commands.UsableOnes(a + b) == Commands.UsableOnes(a) + Commands.UsableOnes(b)
  {
    hide Commands.Usable;
    if b == [] {
      assert a + b == a;
    } else {
      var n := |b| - 1;
      assert (a + b)[..|a + b| - 1] == a + b[..n];
      UsableConcat(a, b[..n]);
    }
  }

  lemma {:induction false} CountConcat(a: seq<Commands.Command>, b: seq<Commands.Command>, name: string)
    ensures Commands.CountName(a + b, name) == Commands.CountName(a, name) + Commands.CountName(b, name)
  {
    if b == [] {
      assert a + b == a;
    } else {
      var n := |b| - 1;
      assert (a + b)[..|a + b| - 1] == a + b[..n];
      CountConcat(a, b[..n], name);
    }
  }

  lemma {:induction false} FilteredCountsLess(cs: seq<Commands.Command>, keep: Commands.Command -> bool, name: string)
    ensures Commands.CountName(Filter(cs, keep), name) <= Commands.CountName(cs, name)
  {
    if cs != [] {
      var n := |cs| - 1;
      FilteredCountsLess(cs[..n], keep, name);
      CountConcat(Filter(cs[..n], keep), if keep(cs[n]) then [cs[n]] else [], name);
    }
  }

  /** A usable claim makes the count positive, and a count of zero means there is none. */
  lemma {:induction false} NoClaimMeansNone(cs: seq<Commands.Command>, name: string)
    ensures Commands.CountName(cs, name) > 0 <==> exists i :: 0 <= i < |cs| && cs[i].name == name
  {
    if cs != [] {
      var n := |cs| - 1;
      NoClaimMeansNone(cs[..n], name);
      assert forall i :: 0 <= i < n ==> cs[..n][i] == cs[i];
    }
  }

  predicate FreshlyClaimed(s: Summary, name: string) {
    exists d :: d in s.commands && Commands.Usable(d) && d.name == name
  }

  lemma FreshClaims(s: Summary, name: string)
    ensures Commands.Claims(s.commands, name) > 0 <==> FreshlyClaimed(s, name)
  {
    hide Commands.Usable, Commands.UsableOnes, Commands.CountName;
    var usable := Commands.UsableOnes(s.commands);
    NoClaimMeansNone(usable, name);
    forall d: Commands.Command ensures d in usable <==> d in s.commands && Commands.Usable(d) {
      Commands.UsableMembers(s.commands, d);
    }
    if Commands.CountName(usable, name) > 0 {
      var i :| 0 <= i < |usable| && usable[i].name == name;
      assert usable[i] in usable;
    }
  }

  /** `cs` is a list of commands the agent may hold: one that came out of a resolution. */
  predicate Resolved(cs: seq<Commands.Command>) { Commands.Admitted(cs) == cs }

  lemma KeptClaims(cs: seq<Commands.Command>, failed: seq<string>, c: Commands.Command)
    requires Resolved(cs) && c in cs && c.plugin in failed
    ensures c in KeptCommands(cs, failed) && Commands.Usable(c) && !Commands.IsReserved(c.name)
    ensures Commands.Claims(KeptCommands(cs, failed), c.name) == 1
  {
    hide Commands.Usable, Commands.UsableOnes, Commands.CountName, Commands.IsReserved, Commands.Admitted, Filter;
    var keep := (c: Commands.Command) => c.plugin in failed;
    var kept := KeptCommands(cs, failed);
    assert kept == Filter(cs, keep);
    FilterMembers(cs, keep, c);
    Commands.AdmittedExactly(cs, c);
    forall i | 0 <= i < |cs| ensures Commands.Usable(cs[i]) { Commands.AdmittedExactly(cs, cs[i]); }
    forall i | 0 <= i < |kept| ensures Commands.Usable(kept[i]) {
      FilterMembers(cs, keep, kept[i]);
      Commands.AdmittedExactly(cs, kept[i]);
    }
    Commands.AllUsable(cs);
    Commands.AllUsable(kept);
    FilteredCountsLess(cs, keep, c.name);
    Commands.CountPositive(kept, c);
  }

  /**
   * A failed plugin keeps a command exactly when no plugin that loaded claims its name;
   * where one does, nobody has the name.
   */
  lemma KeptCommandSurvivesExactly(cs: seq<Commands.Command>, s: Summary, c: Commands.Command)
    requires Resolved(cs) && c in cs && c.plugin in s.failed
    ensures c in CommandsAfter(cs, s) <==> !FreshlyClaimed(s, c.name)
    ensures FreshlyClaimed(s, c.name) ==> forall d :: d in CommandsAfter(cs, s) ==> d.name != c.name
    ensures Resolved(CommandsAfter(cs, s))
  {
    hide Commands.Usable, Commands.UsableOnes, Commands.CountName, Commands.IsReserved, Commands.Admitted,
      KeptCommands, FreshlyClaimed;
    var kept := KeptCommands(cs, s.failed);
    var all := s.commands + kept;
    KeptClaims(cs, s.failed, c);
    FreshClaims(s, c.name);
    UsableConcat(s.commands, kept);
    CountConcat(Commands.UsableOnes(s.commands), Commands.UsableOnes(kept), c.name);
    Commands.AdmittedExactly(all, c);
    forall d | d in CommandsAfter(cs, s) && d.name == c.name ensures !FreshlyClaimed(s, c.name) {
      Commands.AdmittedExactly(all, d);
    }
    Commands.ResolvingIsIdempotent(all);
  }

  // ---------- subscribers ----------

  /** Keeping subscribers keeps their places in every event's list. */
  lemma {:induction false} KeptLists(subs: seq<Subscriber>, failed: seq<string>, event: string)
    ensures ListFor(KeptSubscribers(subs, failed), event) == KeptSubscribers(ListFor(subs, event), failed)
  {
    hide Times, Copies;
    if subs != [] {
      var n := |subs| - 1;
      var last := subs[n];
      var keep := (s: Subscriber) => s.plugin in failed;
      var copies := Copies(last, Times(last.events, event));
      KeptLists(subs[..n], failed, event);
      var before, kept := ListFor(subs[..n], event), KeptSubscribers(subs[..n], failed);
      FilterConcat(before, copies, keep);
      assert Filter(before, keep) + [] == Filter(before, keep) && kept + [] == kept;
      if keep(last) {
        FilterAll(copies, keep);
        ListForSnoc(kept, last, event);
      } else {
        FilterNone(copies, keep);
      }
    }
  }

  lemma ListForSnoc(subs: seq<Subscriber>, s: Subscriber, event: string)
    ensures ListFor(subs + [s], event) == ListFor(subs, event) + Copies(s, Times(s.events, event))
  {
    assert (subs + [s])[..|subs|] == subs;
  }

  lemma {:induction false} FilterDistinct(subs: seq<Subscriber>, failed: seq<string>)
    requires DistinctIds(subs)
    ensures DistinctIds(KeptSubscribers(subs, failed))
  {
    if subs != [] {
      var n := |subs| - 1;
      FilterDistinct(subs[..n], failed);
      forall s | s in KeptSubscribers(subs[..n], failed) ensures s.id != subs[n].id {
        FilterMembers(subs[..n], (s: Subscriber) => s.plugin in failed, s);
      }
    }
  }

  /** After a reload an event reaches the fresh subscribers first, then the kept ones it reached before. */
  lemma FailedSubscriptionsSurvive(
      table: Table, order: seq<string>, subs: seq<Subscriber>, s: Summary, event: string)
    requires Indexes(table, subs) && DistinctIds(subs) && Enumerates(order, table)
    ensures ListFor(s.subscribers, event) <= ListFor(SubscribersAfter(table, order, s), event)
    ensures multiset(ListFor(SubscribersAfter(table, order, s), event)) ==
            multiset(ListFor(s.subscribers, event)) + multiset(KeptSubscribers(ListOf(table, event), s.failed))
  {
    hide DistinctIds, SharedIn, ListFor, Filter, Enumerates;
    var shared := SharedIn(table, order);
    var kept, keptBefore := KeptSubscribers(shared, s.failed), KeptSubscribers(subs, s.failed);
    SharedGivesBack(table, order, subs);
    FilterDistinct(shared, s.failed);
    FilterDistinct(subs, s.failed);
    forall t: Subscriber | t.events != [] ensures t in kept <==> t in keptBefore {
      FilterMembers(shared, (s': Subscriber) => s'.plugin in s.failed, t);
      FilterMembers(subs, (s': Subscriber) => s'.plugin in s.failed, t);
    }
    SameSubscribersSameCounts(kept, keptBefore, event);
    KeptLists(subs, s.failed, event);
    ListForConcat(s.subscribers, kept, event);
  }

  /** Fresh pointers differ from live ones, so the next reload starts from distinct subscriptions again. */
  lemma SubscriptionsStayDistinct(table: Table, order: seq<string>, subs: seq<Subscriber>, s: Summary)
    requires Indexes(table, subs) && DistinctIds(subs) && DistinctIds(s.subscribers)
    requires forall a, b :: a in s.subscribers && b in subs ==> a.id != b.id
    ensures DistinctIds(SubscribersAfter(table, order, s))
  {
    hide SharedIn, ListFor, Filter;
    var shared := SharedIn(table, order);
    var kept := KeptSubscribers(shared, s.failed);
    SharedMembers(table, order, subs);
    FilterDistinct(shared, s.failed);
    forall b | b in kept ensures b in subs {
      FilterMembers(shared, (t: Subscriber) => t.plugin in s.failed, b);
    }
  }

  /** The order among kept subscribers follows the hash order of the events, not the old order. */
  lemma KeptOrderMayChange(a: Subscriber, b: Subscriber, s: Summary)
    requires a.id != b.id && a.events == ["x"] && b.events == ["x", "y"]
    requires s.subscribers == [] && a.plugin in s.failed && b.plugin in s.failed
    ensures var table := map["x" := [a, b], "y" := [b]];
            && Indexes(table, [a, b])
            && ListFor(SubscribersAfter(table, ["y", "x"], s), "x") == [b, a]
  {
    hide Filter, SharedIn, ListFor, Times;
    var table := map["x" := [a, b], "y" := [b]];
    ExampleShared(table, a, b);
    FilterAll([b, a], (t: Subscriber) => t.plugin in s.failed);
    assert [] + [b, a] == [b, a];
    assert Copies(a, 1) == [a] && Copies(b, 1) == [b] && Copies(a, 0) == [] && Copies(b, 0) == [];
    forall event ensures ListOf(table, event) == ListFor([a, b], event) {
      ListForTwo(a, b, event);
      TimesUpToTwo(event, "x", "y");
    }
    ListForTwo(b, a, "x");
    TimesUpToTwo("x", "x", "y");
  }

  lemma ListForTwo(a: Subscriber, b: Subscriber, event: string)
    ensures ListFor([a, b], event) == Copies(a, Times(a.events, event)) + Copies(b, Times(b.events, event))
  {
    hide Times, Copies;
    ListForSnoc([], a, event);
    ListForSnoc([a], b, event);
    assert [] + [a] == [a] && [a] + [b] == [a, b];
  }

  lemma TimesUpToTwo(event: string, e: string, f: string)
    ensures Times([e], event) == if e == event then 1 else 0
    ensures Times([e, f], event) == (if e == event then 1 else 0) + if f == event then 1 else 0
  {
    assert [e, f][..1] == [e] && [e][..0] == [];
  }

  lemma AddAllUpToTwo(out: seq<Subscriber>, s: Subscriber, t: Subscriber)
    ensures AddAll(out, [s]) == AddOnce(out, s)
    ensures AddAll(out, [s, t]) == AddOnce(AddOnce(out, s), t)
  {
    hide AddOnce;
    assert [s, t][..1] == [s] && [s][..0] == [];
  }

  lemma SharedTwo(table: Table, e: string, f: string)
    ensures SharedIn(table, [e, f]) == AddAll(AddAll([], ListOf(table, e)), ListOf(table, f))
  {
    hide AddAll;
    assert [e, f][..1] == [e] && [e][..0] == [];
    assert SharedIn(table, []) == [];
    assert SharedIn(table, [e]) == AddAll([], ListOf(table, e));
  }

  lemma ExampleShared(table: Table, a: Subscriber, b: Subscriber)
    requires table == map["x" := [a, b], "y" := [b]] && a.id != b.id
    ensures SharedIn(table, ["y", "x"]) == [b, a]
  {
    hide SharedIn, AddAll;
    SharedTwo(table, "y", "x");
    AddAllUpToTwo([], b, b);
    AddAllUpToTwo([b], a, b);
    assert [b][0].id == b.id && [b, a][0].id == b.id;
    assert [] + [b] == [b] && [b] + [a] == [b, a];
  }

  // ---------- grant rows ----------

  function RowsOf(gs: seq<Grant>, plugin: string): seq<Grant> {
    Filter(gs, (g: Grant) => g.plugin == plugin)
  }

  lemma RowsSnoc(gs: seq<Grant>, g: Grant, plugin: string)
    ensures RowsOf(gs + [g], plugin) == RowsOf(gs, plugin) + if g.plugin == plugin then [g] else []
  {
    assert (gs + [g])[..|gs|] == gs;
  }

  lemma BeforeChain(g: string, a: string, b: string)
    requires !PluginContext.Before(b, a) && !PluginContext.Before(g, b)
    ensures !PluginContext.Before(g, a)
  {
    hide PluginContext.Before;
    PluginContext.BeforeTotal(a, b);
    PluginContext.BeforeTotal(g, b);
    if PluginContext.Before(g, a) && a != b {
      PluginContext.BeforeTransitive(g, a, b);
    }
  }

  lemma RowOrder()
    ensures TotalOrder(NotAfter)
  {
    hide PluginContext.Before;
    forall a: Grant, b: Grant ensures NotAfter(a, b) || NotAfter(b, a) {
      PluginContext.BeforeTotal(a.plugin, b.plugin);
    }
    forall a: Grant, b: Grant, c: Grant | NotAfter(a, b) && NotAfter(b, c) ensures NotAfter(a, c) {
      BeforeChain(c.plugin, a.plugin, b.plugin);
    }
  }

  /** Sorting puts the plugins in order and leaves each plugin's rows as they were. */
  lemma SortRowsWorks(gs: seq<Grant>, plugin: string)
    ensures Sorted(SortRows(gs), NotAfter) && RowsOf(SortRows(gs), plugin) == RowsOf(gs, plugin)
  {
    hide Filter, Sort, PluginContext.Before, TotalOrder;
    RowOrder();
    SortSorts(gs, NotAfter);
    PluginContext.BeforeTotal(plugin, plugin);
    SortStable(gs, NotAfter, (g: Grant) => g.plugin == plugin);
  }

  lemma ByName(gs: seq<Grant>)
    requires Sorted(gs, NotAfter)
    ensures forall i, j :: 0 <= i < j < |gs| ==> TextLe(gs[i].plugin, gs[j].plugin)
  {
    hide TextLe;
    forall i, j | 0 <= i < j < |gs| ensures TextLe(gs[i].plugin, gs[j].plugin) {
      TextLeTotal(gs[i].plugin, gs[j].plugin);
    }
  }

  /** After a reload a plugin has the rows it loaded with, and after those its old rows if it failed. */
  lemma GrantRowsAfter(gs: seq<Grant>, s: Summary, plugin: string)
    ensures forall i, j :: 0 <= i < j < |GrantsAfter(gs, s)| ==>
              TextLe(GrantsAfter(gs, s)[i].plugin, GrantsAfter(gs, s)[j].plugin)
    ensures RowsOf(GrantsAfter(gs, s), plugin) ==
            RowsOf(s.grants, plugin) + if plugin in s.failed then RowsOf(gs, plugin) else []
  {
    hide Filter, SortRows, Sorted;
    SortRowsWorks(s.grants + KeptGrants(gs, s.failed), plugin);
    ByName(GrantsAfter(gs, s));
    FilterConcat(s.grants, KeptGrants(gs, s.failed), (g: Grant) => g.plugin == plugin);
    KeptRows(gs, s.failed, plugin);
  }

  lemma {:induction false} KeptRows(gs: seq<Grant>, failed: seq<string>, plugin: string)
    ensures RowsOf(KeptGrants(gs, failed), plugin) == if plugin in failed then RowsOf(gs, plugin) else []
  {
    hide Filter;
    if gs == [] {
      NoRows(failed, plugin);
    } else {
      var n := |gs| - 1;
      var kept := KeptGrants(gs[..n], failed);
      KeptRows(gs[..n], failed, plugin);
      KeptSnoc(gs[..n], gs[n], failed);
      RowsSnoc(gs[..n], gs[n], plugin);
      RowsSnoc(kept, gs[n], plugin);
      assert gs == gs[..n] + [gs[n]];
      assert kept + [] == kept && RowsOf(kept, plugin) + [] == RowsOf(kept, plugin);
    }
  }

  lemma NoRows(failed: seq<string>, plugin: string)
    ensures KeptGrants([], failed) == [] && RowsOf([], plugin) == []
  {
  }

  lemma KeptSnoc(gs: seq<Grant>, g: Grant, failed: seq<string>)
    ensures KeptGrants(gs + [g], failed) == KeptGrants(gs, failed) + if g.plugin in failed then [g] else []
  {
    assert (gs + [g])[..|gs|] == gs;
  }

  // ---------- hot reload and cold start ----------

  lemma NothingKept(table: Table, order: seq<string>, cs: seq<Commands.Command>, gs: seq<Grant>, s: Summary)
    requires s.failed == []
    ensures CommandsAfter(cs, s) == Commands.Admitted(s.commands)
    ensures SubscribersAfter(table, order, s) == s.subscribers
    ensures GrantsAfter(gs, s) == SortRows(s.grants)
  {
    hide Filter, SortRows, SharedIn, Commands.Admitted;
    FilterNone(cs, (c: Commands.Command) => c.plugin in s.failed);
    FilterNone(SharedIn(table, order), (t: Subscriber) => t.plugin in s.failed);
    FilterNone(gs, (g: Grant) => g.plugin in s.failed);
    assert s.commands + [] == s.commands && s.subscribers + [] == s.subscribers && s.grants + [] == s.grants;
  }

  datatype State = State(tools: Tools, commands: seq<Commands.Command>, subscribers: Table, grants: seq<Grant>)

  /** What `LoadExtensions` makes of a registry that holds `base`. */
  ghost predicate ColdStart(base: Tools, allow: Option<set<string>>, s: Summary, r: State) {
    && r.tools == RegisterAll(base, allow, s.tools)
    && r.commands == Commands.Admitted(s.commands)
    && Indexes(r.subscribers, s.subscribers)
    && r.grants == s.grants
  }

  /** What `ReloadExtensions` makes of `a`. */
  ghost predicate Reloaded(a: State, allow: Option<set<string>>, s: Summary, order: seq<string>, b: State) {
    && b.tools == ToolsAfter(a.tools, allow, s)
    && b.commands == CommandsAfter(a.commands, s)
    && Indexes(b.subscribers, SubscribersAfter(a.subscribers, order, s))
    && b.grants == GrantsAfter(a.grants, s)
  }

  /** The same commands, the same subscribers for every event, and the same grant rows for every plugin. */
  ghost predicate SameExtensions(a: State, b: State) {
    && a.commands == b.commands
    && (forall event :: ListOf(a.subscribers, event) == ListOf(b.subscribers, event))
    && (forall plugin :: RowsOf(a.grants, plugin) == RowsOf(b.grants, plugin))
  }

  ghost predicate SameToolsBut(a: Tools, b: Tools, mcp: Tools) {
    forall name :: At(a, name) == if HoldsMcp(mcp, name) then Some(mcp[name]) else At(b, name)
  }

  /** With no failure a reload is a cold start on the built-ins, whatever was loaded before. */
  lemma ReloadIsColdStart(
      a: State, allow: Option<set<string>>, s: Summary, order: seq<string>, b: State, cold: State)
    requires s.failed == [] && Reloaded(a, allow, s, order, b) && ColdStart(Builtins(a.tools), allow, s, cold)
    ensures SameToolsBut(b.tools, cold.tools, a.tools)
    ensures SameExtensions(b, cold)
    ensures b.grants == cold.grants <==> Sorted(s.grants, NotAfter)
  {
    hide ToolsAfter, CommandsAfter, SubscribersAfter, GrantsAfter, RegisterAll, Sort, Sorted, Filter, ListFor,
      Commands.Admitted;
    NothingKept(a.subscribers, order, a.commands, a.grants, s);
    forall name
      ensures At(b.tools, name) == if HoldsMcp(a.tools, name) then Some(a.tools[name]) else At(cold.tools, name)
    {
      ToolsLikeColdStart(a.tools, allow, s, name);
    }
    forall plugin ensures RowsOf(b.grants, plugin) == RowsOf(cold.grants, plugin) {
      SortRowsWorks(s.grants, plugin);
    }
    SortRowsWorks(s.grants, "");
    if Sorted(s.grants, NotAfter) {
      SortedStays(s.grants, NotAfter);
    }
  }

  /** Two plugins that load out of order: a cold start lists their rows as loaded, a reload by name. */
  lemma RowOrderMayChange(
      a: State, allow: Option<set<string>>, s: Summary, order: seq<string>, b: State, cold: State)
    requires s == Summary([], [], [], [Grant("b", "", []), Grant("a", "", [])], [], [])
    requires Reloaded(a, allow, s, order, b) && ColdStart(Builtins(a.tools), allow, s, cold)
    ensures cold.grants == [Grant("b", "", []), Grant("a", "", [])]
    ensures b.grants == [Grant("a", "", []), Grant("b", "", [])]
  {
    hide ToolsAfter, CommandsAfter, SubscribersAfter, GrantsAfter, RegisterAll, ListFor, Commands.Admitted, SortRows;
    NothingKept(a.subscribers, order, a.commands, a.grants, s);
    SortTwo(Grant("b", "", []), Grant("a", "", []));
  }

  lemma SortTwo(x: Grant, y: Grant)
    requires x.plugin == "b" && y.plugin == "a"
    ensures SortRows([x, y]) == [y, x]
  {
    assert [x, y][1..] == [y] && [y][1..] == [];
    assert PluginContext.Before(y.plugin, x.plugin);
    assert Sort([y], NotAfter) == [y];
    assert Insert(x, [y], NotAfter) == [y] + Insert(x, [], NotAfter);
  }

  // ---------- whole runs ----------

  datatype Call = Call(summary: Summary, order: seq<string>)

  ghost predicate Run(states: seq<State>, allow: Option<set<string>>, calls: seq<Call>) {
    && |states| == |calls| + 1
    && forall i :: 0 <= i < |calls| ==>
         && FromPlugins(calls[i].summary.tools)
         && Reloaded(states[i], allow, calls[i].summary, calls[i].order, states[i + 1])
  }

  lemma {:induction false} RunKeepsNonPlugins(states: seq<State>, allow: Option<set<string>>, calls: seq<Call>, k: nat)
    requires Run(states, allow, calls) && k <= |calls|
    ensures NonPlugins(states[k].tools) == NonPlugins(states[0].tools)
  {
    hide ToolsAfter, CommandsAfter, SubscribersAfter, GrantsAfter, FromPlugins, Indexes;
    if k > 0 {
      RunKeepsNonPlugins(states, allow, calls, k - 1);
      assert Reloaded(states[k - 1], allow, calls[k - 1].summary, calls[k - 1].order, states[k]);
      NonPluginsUntouched(states[k - 1].tools, allow, calls[k - 1].summary);
    }
  }

  /** After any history, a reload in which nothing fails leaves what a cold start on the first built-ins gives. */
  lemma HistoryIsForgotten(states: seq<State>, allow: Option<set<string>>, calls: seq<Call>, cold: State)
    requires Run(states, allow, calls) && calls != [] && calls[|calls| - 1].summary.failed == []
    requires ColdStart(Builtins(states[0].tools), allow, calls[|calls| - 1].summary, cold)
    ensures SameToolsBut(states[|calls|].tools, cold.tools, states[0].tools)
    ensures SameExtensions(states[|calls|], cold)
  {
    hide ToolsAfter, CommandsAfter, SubscribersAfter, GrantsAfter, RegisterAll, Reloaded, SameExtensions, ColdStart;
    var n := |calls| - 1;
    var before := states[n];
    RunKeepsNonPlugins(states, allow, calls, n);
    SameNonPlugins(before.tools, states[0].tools);
    ReloadIsColdStart(before, allow, calls[n].summary, calls[n].order, states[n + 1], cold);
  }

  lemma SameNonPlugins(a: Tools, b: Tools)
    requires NonPlugins(a) == NonPlugins(b)
    ensures Builtins(a) == Builtins(b)
    ensures forall name :: HoldsMcp(a, name) == HoldsMcp(b, name)
    ensures forall name :: HoldsMcp(a, name) ==> HoldsMcp(b, name) && a[name] == b[name]
  {
    forall name ensures name in a && !a[name].source.Plugin? <==> name in b && !b[name].source.Plugin? {
      assert name in NonPlugins(a) <==> name in NonPlugins(b);
    }
    forall name | name in a && !a[name].source.Plugin? ensures a[name] == b[name] {
      assert NonPlugins(a)[name] == NonPlugins(b)[name];
    }
  }

  // ---------- contributions to the model's context ----------

  /**
   * A reload takes a contribution away from the plugins that loaded and hold the context capability no longer, and
   * from those with a tool registered that neither loaded nor failed.
   */
  lemma DroppedExactly(tools: Tools, s: Summary, plugin: string)
    ensures plugin in Dropped(tools, s) <==>
            var loaded := exists g :: g in s.grants && g.plugin == plugin;
            || (loaded && plugin !in s.contextHolders)
            || (!loaded && plugin !in s.failed
                && exists n :: n in tools && tools[n].source.Plugin? && tools[n].source.name == plugin)
  {
  }

  /** A vanished plugin loses its contribution exactly when it had a tool registered. */
  lemma VanishedContribution(tools: Tools, s: Summary, plugin: string)
    requires plugin !in Loaded(s) && plugin !in s.failed
    ensures plugin in Dropped(tools, s) <==> plugin in PluginNames(tools)
  {
  }

  /** So a plugin that brought no tool keeps its contribution when it vanishes from the configuration. */
  lemma ToollessContributionStays(
      tools: Tools, allow: Option<set<string>>, loading: Summary, vanishing: Summary, plugin: string)
    requires plugin !in loading.failed && forall t :: t in loading.tools ==> !OwnedBy(t, {plugin})
    requires plugin !in Loaded(vanishing) && plugin !in vanishing.failed
    ensures plugin !in Dropped(ToolsAfter(tools, allow, loading), vanishing)
  {
    hide ToolsAfter;
    VanishedToolsGone(tools, allow, loading, plugin);
    VanishedContribution(ToolsAfter(tools, allow, loading), vanishing, plugin);
  }
}
