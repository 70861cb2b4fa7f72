/** The doors through which third-party tools enter and leave the registry (src/tool/mod.rs). */
module ToolRegistry {
  import opened Text
  import Catalogue

  datatype Source = Builtin | Mcp(server: string) | Plugin(name: string, path: string)

  /** `instance` stands for the object behind the pointer. */
  datatype Tool = Tool(name: string, source: Source, instance: nat)

  type Tools = map<string, Tool>

  predicate Allows(allow: Option<set<string>>, name: string) {
    allow.None? || name in allow.value || Catalogue.Lower(name) in allow.value
  }

  /** The allow list made of the names given on the command line. */
  function AllowListOf(names: seq<string>): Option<set<string>> {
    Some(set n | n in names :: Catalogue.Lower(n))
  }

  /** With such a list a tool is allowed exactly when one of the names is its own, whatever their case. */
  lemma AllowedWhateverCase(names: seq<string>, name: string)
    ensures Allows(AllowListOf(names), name) <==> exists n :: n in names && Catalogue.SameButCase(n, name)
  {
    hide Catalogue.Lower, Catalogue.SameButCase;
    forall n | n in names
      ensures Catalogue.Lower(n) == Catalogue.Lower(name) <==> Catalogue.SameButCase(n, name)
      ensures Catalogue.Lower(n) == name ==> Catalogue.SameButCase(n, name)
    {
      Catalogue.LowerFolds(n, name);
      Catalogue.LowerTwice(n);
      Catalogue.LowerFolds(n, Catalogue.Lower(n));
    }
  }

  function RegisterOne(tools: Tools, allow: Option<set<string>>, t: Tool): Tools {
    if t.name in tools || !Allows(allow, t.name) then tools else tools[t.name := t]
  }

  function RegisterAll(tools: Tools, allow: Option<set<string>>, ts: seq<Tool>): Tools {
    if ts == [] then tools else RegisterOne(RegisterAll(tools, allow, ts[..|ts| - 1]), allow, ts[|ts| - 1])
  }

  predicate OwnedBy(t: Tool, plugins: set<string>) { t.source.Plugin? && t.source.name in plugins }

  function Without(tools: Tools, plugins: set<string>): Tools {
    map n | n in tools && !OwnedBy(tools[n], plugins) :: tools[n]
  }

  function PluginNames(tools: Tools): set<string> {
    set n | n in tools && tools[n].source.Plugin? :: tools[n].source.name
  }

  class Registry {
    var tools: Tools
    const allow: Option<set<string>>

    constructor (tools: Tools, allow: Option<set<string>>)
      ensures this.tools == tools && this.allow == allow
    {
      this.tools, this.allow := tools, allow;
    }

    /** A tool never shadows another; one outside the allow list is left out without complaint. */
    method RegisterExternal(t: Tool) returns (collision: Option<string>)
      modifies this
      ensures tools == RegisterOne(old(tools), allow, t)
      ensures collision == if t.name in old(tools) then Some(t.name) else None
    {
      if t.name in tools {
        return Some(t.name);
      }
      if allow.Some? && t.name !in allow.value && Catalogue.Lower(t.name) !in allow.value {
        return None;
      }
      tools := tools[t.name := t];
      return None;
    }

    method UnregisterPlugin(plugin: string)
      modifies this
      ensures tools == Without(old(tools), {plugin})
    {
      var removed := set n | n in tools && OwnedBy(tools[n], {plugin});
      while removed != {}
        invariant removed <= tools.Keys
        invariant forall n :: n in tools <==> n in old(tools) && (n in removed || !OwnedBy(old(tools)[n], {plugin}))
        invariant forall n :: n in tools ==> tools[n] == old(tools)[n]
        invariant forall n :: n in removed ==> OwnedBy(tools[n], {plugin})
      {
        var n :| n in removed;
        tools := tools - {n};
        removed := removed - {n};
      }
    }
  }

  // ---------- what is registered under a name ----------

  function At(tools: Tools, name: string): Option<Tool> {
    if name in tools then Some(tools[name]) else None
  }

  function FirstNamed(ts: seq<Tool>, name: string): Option<Tool> {
    if ts == [] then None else if ts[0].name == name then Some(ts[0]) else FirstNamed(ts[1..], name)
  }

  lemma {:induction false} FirstNamedSnoc(ts: seq<Tool>, t: Tool, name: string)
    ensures FirstNamed(ts + [t], name) ==
            if FirstNamed(ts, name).Some? then FirstNamed(ts, name) else if t.name == name then Some(t) else None
  {
    if ts == [] {
      assert ts + [t] == [t];
    } else {
      FirstNamedSnoc(ts[1..], t, name);
      assert (ts + [t])[1..] == ts[1..] + [t];
    }
  }

  /** What was there stays; otherwise the first tool of that name gets in, if it is allowed. */
  lemma {:induction false} RegisteredAt(tools: Tools, allow: Option<set<string>>, ts: seq<Tool>, name: string)
    ensures At(RegisterAll(tools, allow, ts), name) ==
            if name in tools then Some(tools[name])
            else if Allows(allow, name) then FirstNamed(ts, name)
            else None
  {
    hide Allows;
    if ts != [] {
      var n := |ts| - 1;
      RegisteredAt(tools, allow, ts[..n], name);
      FirstNamedSnoc(ts[..n], ts[n], name);
      assert ts == ts[..n] + [ts[n]];
    }
  }

  lemma {:induction false} FirstNamedIsMember(ts: seq<Tool>, name: string)
    ensures FirstNamed(ts, name).Some? ==> FirstNamed(ts, name).value in ts && FirstNamed(ts, name).value.name == name
    ensures FirstNamed(ts, name).None? ==> forall t :: t in ts ==> t.name != name
  {
    if ts != [] {
      FirstNamedIsMember(ts[1..], name);
      assert ts == [ts[0]] + ts[1..];
    }
  }

  lemma WithoutTwice(tools: Tools, a: set<string>, b: set<string>)
    ensures Without(Without(tools, a), b) == Without(tools, a + b)
  {
  }
}
