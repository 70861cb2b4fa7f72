/** The rules for plugin commands, said without the resolver (src/command.rs, src/mode/tui.rs). */
module CommandRules {
  import opened Text
  import opened Sequences
  import opened Commands

  // ---------- names ----------

  /** A usable name has 1 to 64 characters, none of them blank, a colon or a slash. */
  predicate GoodName(name: string) {
    1 <= |name| <= 64 && forall i :: 0 <= i < |name| ==> !IsWhitespace(name[i]) && name[i] != ':' && name[i] != '/'
  }

  lemma UsableExactly(c: Command)
    ensures Usable(c) <==> GoodName(c.name)
  {
    hide IsWhitespace;
  }

  /** Each complaint about a name holds of it, and none named before it does. */
  lemma ProblemsExactly(name: string)
    ensures FindProblem(name) == Some(Empty) <==> |name| == 0
    ensures forall n: nat :: FindProblem(name) == Some(TooLong(n)) <==> n == |name| && |name| > 64
    ensures FindProblem(name) == Some(Whitespace) <==>
            |name| <= 64 && exists i :: 0 <= i < |name| && IsWhitespace(name[i])
    ensures FindProblem(name) == Some(Colon) <==>
            |name| <= 64 && ':' in name && forall i :: 0 <= i < |name| ==> !IsWhitespace(name[i])
    ensures FindProblem(name) == Some(Slash) <==>
            |name| <= 64 && '/' in name && ':' !in name && forall i :: 0 <= i < |name| ==> !IsWhitespace(name[i])
  {
    hide IsWhitespace;
  }

  /** The built-in rows of the palette. */
  const PALETTE: seq<string> := [
    "/model", "/new", "/resume", "/fork", "/session", "/name", "/copy", "/export", "/import", "/agents", "/compact",
    "/hotkeys", "/skills", "/tools", "/mcp", "/reload", "/settings", "/keybindings", "/orchestrator", "/quit", "/exit"]

  lemma {:induction false} SlashedNames(names: seq<string>, slashed: seq<string>, name: string)
    requires |names| == |slashed| && forall i :: 0 <= i < |names| ==> slashed[i] == "/" + names[i]
    ensures name in names <==> "/" + name in slashed
  {
    if "/" + name in slashed {
      var i :| 0 <= i < |slashed| && slashed[i] == "/" + name;
      assert ("/" + name)[1..] == name && ("/" + names[i])[1..] == names[i];
    }
  }

  /** The reserved names are exactly those of the palette's built-in rows. */
  lemma ReservedArePalette(name: string)
    ensures IsReserved(name) <==> "/" + name in PALETTE
  {
    PaletteIsSlashed();
    SlashedNames(RESERVED_COMMAND_NAMES, PALETTE, name);
  }

  lemma PaletteIsSlashed()
    ensures |RESERVED_COMMAND_NAMES| == |PALETTE|
    ensures forall i :: 0 <= i < |PALETTE| ==> PALETTE[i] == "/" + RESERVED_COMMAND_NAMES[i]
  {
    forall i | 0 <= i < |PALETTE| ensures PALETTE[i] == "/" + RESERVED_COMMAND_NAMES[i] {
      if i < 11 { FirstSlashed(i); } else { LastSlashed(i); }
    }
  }

  lemma FirstSlashed(i: nat)
    requires i < 11
    ensures PALETTE[i] == "/" + RESERVED_COMMAND_NAMES[i]
  {
  }

  lemma LastSlashed(i: nat)
    requires 11 <= i < |PALETTE|
    ensures i < |RESERVED_COMMAND_NAMES| && PALETTE[i] == "/" + RESERVED_COMMAND_NAMES[i]
  {
  }

  // ---------- who is admitted, in order ----------

  function PluginsOf(cs: seq<Command>): (r: seq<string>)
    ensures |r| == |cs|
  {
    seq(|cs|, i requires 0 <= i < |cs| => cs[i].plugin)
  }

  /** The candidates with a good name that is this one. */
  function Claiming(cs: seq<Command>, name: string): seq<Command> {
    Filter(cs, (c: Command) => GoodName(c.name) && c.name == name)
  }

  lemma {:induction false} UsableIsFilter(cs: seq<Command>)
    ensures UsableOnes(cs) == Filter(cs, (c: Command) => GoodName(c.name))
  {
    hide Usable, GoodName;
    if cs != [] {
      UsableIsFilter(cs[..|cs| - 1]);
      UsableExactly(cs[|cs| - 1]);
    }
  }

  lemma {:induction false} ClaimantsAre(cs: seq<Command>, name: string)
    ensures Claimants(UsableOnes(cs), name) == PluginsOf(Claiming(cs, name))
  {
    hide Usable, GoodName;
    if cs != [] {
      var init, c := cs[..|cs| - 1], cs[|cs| - 1];
      ClaimantsAre(init, name);
      UsableExactly(c);
      var u := UsableOnes(init);
      assert (u + [c])[..|u|] == u && u + [] == u;
      var claims := Claiming(init, name);
      assert PluginsOf(claims + [c]) == PluginsOf(claims) + [c.plugin];
      assert claims + [] == claims;
    }
  }

  /** The candidates that register, in their order: a good name, not a built-in's, and nobody else's. */
  lemma AdmittedInOrder(cs: seq<Command>)
    ensures Admitted(cs) ==
            Filter(cs, (c: Command) => GoodName(c.name) && "/" + c.name !in PALETTE && |Claiming(cs, c.name)| <= 1)
  {
    hide Usable, GoodName, Claimants, Claiming, IsReserved;
    AdmittedFromIs(cs, cs);
  }

  lemma {:induction false} AdmittedFromIs(all: seq<Command>, cs: seq<Command>)
    ensures AdmittedFrom(UsableOnes(all), UsableOnes(cs)) ==
            Filter(cs, (c: Command) => GoodName(c.name) && "/" + c.name !in PALETTE && |Claiming(all, c.name)| <= 1)
  {
    hide GoodName, Claimants, Claiming, IsReserved, FindProblem;
    if cs != [] {
      var init, c := cs[..|cs| - 1], cs[|cs| - 1];
      AdmittedFromIs(all, init);
      UsableExactly(c);
      ReservedArePalette(c.name);
      ClaimantsAre(all, c.name);
      var u := UsableOnes(init);
      assert (u + [c])[..|u|] == u && u + [] == u;
      assert Admissible(UsableOnes(all), c) <==> "/" + c.name !in PALETTE && |Claiming(all, c.name)| <= 1;
    }
  }

  // ---------- what is said about the others ----------

  lemma {:induction false} UnusableSaid(cs: seq<Command>, d: Diagnostic)
    ensures d in UnusableDiagnostics(cs) <==>
            exists c :: c in cs && !GoodName(c.name) && Some(d) == Complaint(c)
  {
    hide GoodName, FindProblem;
    if cs != [] {
      var n := |cs| - 1;
      UnusableSaid(cs[..n], d);
      UsableExactly(cs[n]);
      assert cs == cs[..n] + [cs[n]];
    }
  }

  function Complaint(c: Command): Option<Diagnostic> {
    if FindProblem(c.name).Some? then Some(Unusable(FindProblem(c.name).value, [c.plugin])) else None
  }

  /** What the resolver says of a candidate with a good name: a built-in's name, or one that others claim too. */
  predicate Says(all: seq<Command>, c: Command, d: Diagnostic) {
    if "/" + c.name in PALETTE then d == Reserved(c.name, [c.plugin])
    else |Claiming(all, c.name)| > 1 && d == Contested(c.name, PluginsOf(Claiming(all, c.name)))
  }

  ghost predicate SomeSays(all: seq<Command>, cs: seq<Command>, d: Diagnostic) {
    exists c :: c in cs && GoodName(c.name) && Says(all, c, d)
  }

  lemma {:induction false} CollisionSaid(all: seq<Command>, cs: seq<Command>, d: Diagnostic)
    ensures d in CollisionDiagnostics(UsableOnes(all), UsableOnes(cs)) <==> SomeSays(all, cs, d)
  {
    hide GoodName, Says, CollisionOf, Usable;
    if cs != [] {
      var init, c := cs[..|cs| - 1], cs[|cs| - 1];
      assert cs == init + [c];
      CollisionSaid(all, init, d);
      UsableExactly(c);
      SomeMoreSays(all, init, c, d);
      var u := UsableOnes(init);
      if GoodName(c.name) {
        assert UsableOnes(cs) == u + [c];
        assert (u + [c])[..|u|] == u && (u + [c])[|u|] == c;
        OneCollision(all, init, c, d);
      } else {
        assert UsableOnes(cs) == u;
      }
    }
  }

  lemma SomeMoreSays(all: seq<Command>, init: seq<Command>, c: Command, d: Diagnostic)
    ensures SomeSays(all, init + [c], d) <==> SomeSays(all, init, d) || (GoodName(c.name) && Says(all, c, d))
  {
    hide GoodName, Says;
    assert c in init + [c];
  }

  lemma OneCollision(all: seq<Command>, init: seq<Command>, c: Command, d: Diagnostic)
    requires GoodName(c.name)
    ensures d in CollisionOf(UsableOnes(all), UsableOnes(init), c) ==> Says(all, c, d)
    ensures Says(all, c, d) ==> d in CollisionOf(UsableOnes(all), UsableOnes(init), c) || SomeSays(all, init, d)
  {
    hide GoodName, Claimants, Claiming, IsReserved, FindProblem;
    ReservedArePalette(c.name);
    ClaimantsAre(all, c.name);
    var u := UsableOnes(init);
    if NamedIn(u, c.name) {
      var i :| 0 <= i < |u| && u[i].name == c.name;
      UsableMembers(init, u[i]);
      assert u[i] in init && GoodName(u[i].name) by { UsableExactly(u[i]); }
      assert Says(all, c, d) && "/" + c.name !in PALETTE ==> Says(all, u[i], d);
    }
  }

  /** Every diagnostic, told candidate by candidate. */
  lemma DiagnosticsExactly(cs: seq<Command>, d: Diagnostic)
    ensures d in Diagnostics(cs) <==>
            (exists c :: c in cs && !GoodName(c.name) && Some(d) == Complaint(c)) || SomeSays(cs, cs, d)
  {
    hide GoodName, Says, Complaint, UnusableDiagnostics, CollisionDiagnostics, UsableOnes;
    UnusableSaid(cs, d);
    CollisionSaid(cs, cs, d);
  }
}
