/** Deciding which plugin commands may register (src/command.rs). */
module Commands {
  import opened Text

  /** A candidate: its name, the plugin that offers it, and the rest of it. */
  datatype Command = Command(name: string, description: string, plugin: string)

  datatype NameProblem = Empty | TooLong(len: nat) | Whitespace | Colon | Slash

  datatype Diagnostic =
    | Unusable(problem: NameProblem, plugins: seq<string>)
    | Reserved(name: string, plugins: seq<string>)
    | Contested(name: string, plugins: seq<string>)

  const RESERVED_COMMAND_NAMES: seq<string> := [
    "model", "new", "resume", "fork", "session", "name", "copy", "export", "import", "agents", "compact",
    "hotkeys", "skills", "tools", "mcp", "reload", "settings", "keybindings", "orchestrator", "quit", "exit"]

  const MAX_COMMAND_NAME_LENGTH: nat := 64

  predicate HasWhitespace(s: string) {
    exists i :: 0 <= i < |s| && IsWhitespace(s[i])
  }

  function FindProblem(name: string): Option<NameProblem> {
    if name == "" then Some(Empty)
    else if |name| > MAX_COMMAND_NAME_LENGTH then Some(TooLong(|name|))
    else if HasWhitespace(name) then Some(Whitespace)
    else if ':' in name then Some(Colon)
    else if '/' in name then Some(Slash)
    else None
  }

  predicate Usable(c: Command) { FindProblem(c.name).None? }

  predicate IsReserved(name: string) { name in RESERVED_COMMAND_NAMES }

  // ---------- specification ----------

  function UsableOnes(cs: seq<Command>): seq<Command> {
    if cs == [] then [] else
      UsableOnes(cs[..|cs| - 1]) + if Usable(cs[|cs| - 1]) then [cs[|cs| - 1]] else []
  }

  /** The plugins claiming a name, in candidate order. */
  function Claimants(valid: seq<Command>, name: string): seq<string> {
    if valid == [] then [] else
      var c := valid[|valid| - 1];
      Claimants(valid[..|valid| - 1], name) + if c.name == name then [c.plugin] else []
  }

  predicate Admissible(valid: seq<Command>, c: Command) {
    !IsReserved(c.name) && |Claimants(valid, c.name)| <= 1
  }

  /** Those of `cs` that may register when `valid` are all the usable candidates. */
  function AdmittedFrom(valid: seq<Command>, cs: seq<Command>): seq<Command> {
    if cs == [] then [] else
      AdmittedFrom(valid, cs[..|cs| - 1]) + if Admissible(valid, cs[|cs| - 1]) then [cs[|cs| - 1]] else []
  }

  /** The usable candidates whose name is not reserved and claimed once, in order. */
  function Admitted(cs: seq<Command>): seq<Command> {
    AdmittedFrom(UsableOnes(cs), UsableOnes(cs))
  }

  /** First complaints: one for each unusable name. */
  function UnusableDiagnostics(cs: seq<Command>): seq<Diagnostic> {
    if cs == [] then [] else
      var c := cs[|cs| - 1];
      UnusableDiagnostics(cs[..|cs| - 1]) + if Usable(c) then [] else [Unusable(FindProblem(c.name).value, [c.plugin])]
  }

  predicate NamedIn(cs: seq<Command>, name: string) {
    exists i :: 0 <= i < |cs| && cs[i].name == name
  }

  function CollisionOf(valid: seq<Command>, before: seq<Command>, c: Command): seq<Diagnostic> {
    if IsReserved(c.name) then [Reserved(c.name, [c.plugin])]
    else if |Claimants(valid, c.name)| > 1 && !NamedIn(before, c.name) then
      [Contested(c.name, Claimants(valid, c.name))]
    else []
  }

  /** Then the collisions: each reserved claim, and each contested name once, when it is first met. */
  function CollisionDiagnostics(valid: seq<Command>, cs: seq<Command>): seq<Diagnostic> {
    if cs == [] then [] else
      var before := cs[..|cs| - 1];
      CollisionDiagnostics(valid, before) + CollisionOf(valid, before, cs[|cs| - 1])
  }

  function Diagnostics(cs: seq<Command>): seq<Diagnostic> {
    UnusableDiagnostics(cs) + CollisionDiagnostics(UsableOnes(cs), UsableOnes(cs))
  }

  // ---------- implementation ----------

  function ClaimsOf(counts: map<string, seq<string>>, name: string): seq<string> {
    if name in counts then counts[name] else []
  }

  method ResolveCommands(candidates: seq<Command>) returns (commands: seq<Command>, diagnostics: seq<Diagnostic>)
    ensures commands == Admitted(candidates)
    ensures diagnostics == Diagnostics(candidates)
  {
    hide AdmittedFrom, CollisionDiagnostics;
    var valid, unusable := DropUnusable(candidates);
    var counts := Tally(valid);
    commands, diagnostics := AdmitOrRefuse(valid, counts, unusable);
  }

  method DropUnusable(candidates: seq<Command>) returns (valid: seq<Command>, diagnostics: seq<Diagnostic>)
    ensures valid == UsableOnes(candidates) && diagnostics == UnusableDiagnostics(candidates)
  {
    hide FindProblem;
    valid, diagnostics := [], [];
    for i := 0 to |candidates|
      invariant valid == UsableOnes(candidates[..i]) && diagnostics == UnusableDiagnostics(candidates[..i])
    {
      assert candidates[..i + 1][..i] == candidates[..i];
      var c := candidates[i];
      var why := FindProblem(c.name);
      if why.Some? {
        diagnostics := diagnostics + [Unusable(why.value, [c.plugin])];
        continue;
      }
      valid := valid + [c];
    }
    assert candidates[..|candidates|] == candidates;
  }

  method Tally(valid: seq<Command>) returns (counts: map<string, seq<string>>)
    ensures forall name :: ClaimsOf(counts, name) == Claimants(valid, name)
  {
    counts := map[];
    for i := 0 to |valid|
      invariant forall name :: ClaimsOf(counts, name) == Claimants(valid[..i], name)
    {
      assert valid[..i + 1][..i] == valid[..i];
      counts := counts[valid[i].name := ClaimsOf(counts, valid[i].name) + [valid[i].plugin]];
    }
    assert valid[..|valid|] == valid;
  }

  method AdmitOrRefuse(valid: seq<Command>, counts: map<string, seq<string>>, unusable: seq<Diagnostic>)
    returns (commands: seq<Command>, diagnostics: seq<Diagnostic>)
    requires forall name :: ClaimsOf(counts, name) == Claimants(valid, name)
    ensures commands == AdmittedFrom(valid, valid)
    ensures diagnostics == unusable + CollisionDiagnostics(valid, valid)
  {
    hide IsReserved, Claimants, ClaimsOf, NamedIn;
    var reported: seq<string> := [];
    NoneNamed();
    commands, diagnostics := [], unusable;
    for i := 0 to |valid|
      invariant commands == AdmittedFrom(valid, valid[..i])
      invariant diagnostics == unusable + CollisionDiagnostics(valid, valid[..i])
      invariant forall name :: name in reported <==>
          !IsReserved(name) && |Claimants(valid, name)| > 1 && NamedIn(valid[..i], name)
    {
      assert valid[..i + 1][..i] == valid[..i];
      var c := valid[i];
      NamedSnoc(valid[..i], c);
      assert valid[..i + 1] == valid[..i] + [c];
      if IsReserved(c.name) {
        diagnostics := diagnostics + [Reserved(c.name, [c.plugin])];
        continue;
      }
      var claimants := ClaimsOf(counts, c.name);
      if |claimants| > 1 {
        if c.name !in reported {
          reported := reported + [c.name];
          diagnostics := diagnostics + [Contested(c.name, claimants)];
        }
        continue;
      }
      commands := commands + [c];
    }
    assert valid[..|valid|] == valid;
  }

  lemma NoneNamed()
    ensures forall name :: !NamedIn([], name)
  {
  }

  lemma NamedSnoc(cs: seq<Command>, c: Command)
    ensures forall name :: NamedIn(cs + [c], name) <==> NamedIn(cs, name) || name == c.name
  {
    forall name ensures NamedIn(cs + [c], name) <==> NamedIn(cs, name) || name == c.name {
      if NamedIn(cs, name) {
        var i :| 0 <= i < |cs| && cs[i].name == name;
        assert (cs + [c])[i].name == name;
      }
      assert (cs + [c])[|cs|] == c;
    }
  }

  // ---------- who is admitted ----------

  function CountName(cs: seq<Command>, name: string): nat {
    if cs == [] then 0 else CountName(cs[..|cs| - 1], name) + if cs[|cs| - 1].name == name then 1 else 0
  }

  lemma {:induction false} ClaimantsCount(valid: seq<Command>, name: string)
    ensures |Claimants(valid, name)| == CountName(valid, name)
  {
    if valid != [] { ClaimantsCount(valid[..|valid| - 1], name); }
  }

  /** How many usable candidates carry the name. */
  function Claims(cs: seq<Command>, name: string): nat { CountName(UsableOnes(cs), name) }

  /** What admits one candidate, said without order. */
  predicate Admits(cs: seq<Command>, c: Command) {
    Usable(c) && !IsReserved(c.name) && Claims(cs, c.name) == 1
  }

  lemma {:induction false} UsableMembers(cs: seq<Command>, c: Command)
    ensures c in UsableOnes(cs) <==> c in cs && Usable(c)
  {
    hide FindProblem;
    if cs != [] {
      var n := |cs| - 1;
      UsableMembers(cs[..n], c);
      assert cs == cs[..n] + [cs[n]];
    }
  }

  lemma {:induction false} CountPositive(cs: seq<Command>, c: Command)
    requires c in cs
    ensures CountName(cs, c.name) >= 1
  {
    var n := |cs| - 1;
    assert cs == cs[..n] + [cs[n]];
    if c != cs[n] { CountPositive(cs[..n], c); }
  }

  lemma {:induction false} AdmittedMembers(valid: seq<Command>, cs: seq<Command>, c: Command)
    ensures c in AdmittedFrom(valid, cs) <==> c in cs && Admissible(valid, c)
  {
    hide Admissible;
    if cs != [] {
      var n := |cs| - 1;
      AdmittedMembers(valid, cs[..n], c);
      assert cs == cs[..n] + [cs[n]];
    }
  }

  /** A candidate is admitted exactly when its name is usable, not reserved and claimed once among usable candidates. */
  lemma AdmittedExactly(cs: seq<Command>, c: Command)
    ensures c in Admitted(cs) <==> c in cs && Admits(cs, c)
  {
    hide FindProblem, IsReserved;
    var valid := UsableOnes(cs);
    AdmittedMembers(valid, valid, c);
    UsableMembers(cs, c);
    ClaimantsCount(valid, c.name);
    if c in valid { CountPositive(valid, c); }
  }

  // ---------- order does not matter ----------

  lemma {:induction false} UsableMultiset(cs: seq<Command>, c: Command)
    ensures multiset(UsableOnes(cs))[c] == if Usable(c) then multiset(cs)[c] else 0
  {
    hide FindProblem;
    if cs != [] {
      var n := |cs| - 1;
      UsableMultiset(cs[..n], c);
      assert cs == cs[..n] + [cs[n]];
      assert multiset(cs) == multiset(cs[..n]) + multiset{cs[n]};
    }
  }

  lemma {:induction false} AdmittedMultiset(valid: seq<Command>, cs: seq<Command>, c: Command)
    ensures multiset(AdmittedFrom(valid, cs))[c] == if Admissible(valid, c) then multiset(cs)[c] else 0
  {
    hide Admissible;
    if cs != [] {
      var n := |cs| - 1;
      AdmittedMultiset(valid, cs[..n], c);
      assert cs == cs[..n] + [cs[n]];
      assert multiset(cs) == multiset(cs[..n]) + multiset{cs[n]};
    }
  }

  lemma CountConcat(a: seq<Command>, c: Command, b: seq<Command>, name: string)
    ensures CountName(a + [c] + b, name) == CountName(a + b, name) + if c.name == name then 1 else 0
    decreases |b|
  {
    if b == [] {
      assert (a + [c] + b)[..|a|] == a && a + b == a;
    } else {
      var n := |b| - 1;
      CountConcat(a, c, b[..n], name);
      assert (a + [c] + b)[..|a| + 1 + n] == a + [c] + b[..n] && (a + b)[..|a| + n] == a + b[..n];
    }
  }

  lemma {:induction false} CountPermutes(a: seq<Command>, b: seq<Command>, name: string)
    requires multiset(a) == multiset(b)
    ensures CountName(a, name) == CountName(b, name)
  {
    assert |multiset(a)| == |multiset(b)|;
    if a != [] {
      var n := |a| - 1;
      var c := a[n];
      assert a == a[..n] + [c];
      assert c in multiset(b);
      var i :| 0 <= i < |b| && b[i] == c;
      var rest := b[..i] + b[i + 1..];
      assert b == b[..i] + [c] + b[i + 1..];
      assert multiset(a[..n]) == multiset(a) - multiset{c};
      assert multiset(rest) == multiset(b) - multiset{c};
      CountPermutes(a[..n], rest, name);
      CountConcat(b[..i], c, b[i + 1..], name);
    }
  }

  /** The admitted multiset is the same for every order of the candidates. */
  lemma OrderDoesNotMatter(a: seq<Command>, b: seq<Command>)
    requires multiset(a) == multiset(b)
    ensures multiset(Admitted(a)) == multiset(Admitted(b))
  {
    hide FindProblem, IsReserved, UsableOnes, AdmittedFrom, Claimants, CountName;
    var u, v := UsableOnes(a), UsableOnes(b);
    forall c ensures multiset(u)[c] == multiset(v)[c] {
      UsableMultiset(a, c);
      UsableMultiset(b, c);
    }
    assert multiset(u) == multiset(v);
    forall c ensures multiset(Admitted(a))[c] == multiset(Admitted(b))[c] {
      AdmittedMultiset(u, u, c);
      AdmittedMultiset(v, v, c);
      ClaimantsCount(u, c.name);
      ClaimantsCount(v, c.name);
      CountPermutes(u, v, c.name);
    }
  }

  // ---------- resolving again ----------

  lemma {:induction false} AllUsable(cs: seq<Command>)
    requires forall i :: 0 <= i < |cs| ==> Usable(cs[i])
    ensures UsableOnes(cs) == cs
  {
    hide Usable;
    if cs != [] {
      AllUsable(cs[..|cs| - 1]);
      assert cs == cs[..|cs| - 1] + [cs[|cs| - 1]];
    }
  }

  lemma {:induction false} AllAdmissible(valid: seq<Command>, cs: seq<Command>)
    requires forall i :: 0 <= i < |cs| ==> Admissible(valid, cs[i])
    ensures AdmittedFrom(valid, cs) == cs
  {
    hide Admissible;
    if cs != [] {
      AllAdmissible(valid, cs[..|cs| - 1]);
      assert cs == cs[..|cs| - 1] + [cs[|cs| - 1]];
    }
  }

  lemma {:induction false} AdmittedCountsLess(valid: seq<Command>, cs: seq<Command>, name: string)
    ensures CountName(AdmittedFrom(valid, cs), name) <= CountName(cs, name)
  {
    hide Admissible;
    if cs != [] {
      var n := |cs| - 1;
      AdmittedCountsLess(valid, cs[..n], name);
      var r := AdmittedFrom(valid, cs[..n]);
      assert (r + [cs[n]])[..|r|] == r;
      assert r + [] == r;
    }
  }

  /** Resolving the admitted commands admits them all again, in the same order. */
  lemma ResolvingIsIdempotent(cs: seq<Command>)
    ensures Admitted(Admitted(cs)) == Admitted(cs)
  {
    hide FindProblem, IsReserved, UsableOnes, AdmittedFrom, Claimants, CountName;
    var valid, r := UsableOnes(cs), Admitted(cs);
    forall i | 0 <= i < |r| ensures Usable(r[i]) && Admissible(r, r[i]) {
      AdmittedExactly(cs, r[i]);
      AdmittedCountsLess(valid, valid, r[i].name);
      ClaimantsCount(r, r[i].name);
    }
    AllUsable(r);
    AllAdmissible(r, r);
  }

  // ---------- diagnostics ----------

  function CountContested(ds: seq<Diagnostic>, name: string): nat {
    if ds == [] then 0 else
      var d := ds[|ds| - 1];
      CountContested(ds[..|ds| - 1], name) + if d.Contested? && d.name == name then 1 else 0
  }

  lemma {:induction false} CountContestedConcat(a: seq<Diagnostic>, b: seq<Diagnostic>, name: string)
    ensures CountContested(a + b, name) == CountContested(a, name) + CountContested(b, name)
  {
    if b == [] {
      assert a + b == a;
    } else {
      CountContestedConcat(a, b[..|b| - 1], name);
      assert (a + b)[..|a + b| - 1] == a + b[..|b| - 1];
    }
  }

  lemma {:induction false} NoContestInUnusable(cs: seq<Command>, name: string)
    ensures CountContested(UnusableDiagnostics(cs), name) == 0
  {
    hide FindProblem;
    if cs != [] {
      var ds := UnusableDiagnostics(cs[..|cs| - 1]);
      NoContestInUnusable(cs[..|cs| - 1], name);
      var c := cs[|cs| - 1];
      CountContestedConcat(ds, if Usable(c) then [] else [Unusable(FindProblem(c.name).value, [c.plugin])], name);
    }
  }

  lemma CollisionCount(valid: seq<Command>, before: seq<Command>, c: Command, name: string)
    ensures CountContested(CollisionOf(valid, before, c), name)
         == if c.name == name && !IsReserved(name) && |Claimants(valid, name)| > 1 && !NamedIn(before, name)
            then 1 else 0
  {
    hide IsReserved, Claimants, NamedIn;
    var ds := CollisionOf(valid, before, c);
    if ds != [] { assert ds[..0] == []; }
  }

  lemma {:induction false} ContestedOnce(valid: seq<Command>, cs: seq<Command>, name: string)
    ensures CountContested(CollisionDiagnostics(valid, cs), name)
         == if !IsReserved(name) && |Claimants(valid, name)| > 1 && NamedIn(cs, name) then 1 else 0
  {
    hide IsReserved, Claimants, NamedIn, CountContested, CollisionOf;
    if cs == [] {
      NoneNamed();
      NoneContested(name);
    } else {
      var before, c := cs[..|cs| - 1], cs[|cs| - 1];
      ContestedOnce(valid, before, name);
      NamedSnoc(before, c);
      assert cs == before + [c];
      CountContestedConcat(CollisionDiagnostics(valid, before), CollisionOf(valid, before, c), name);
      CollisionCount(valid, before, c, name);
    }
  }

  lemma NoneContested(name: string)
    ensures CountContested([], name) == 0
  {
  }

  lemma {:induction false} CountNamed(cs: seq<Command>, name: string)
    ensures CountName(cs, name) > 0 <==> NamedIn(cs, name)
  {
    hide NamedIn;
    if cs == [] {
      NoneNamed();
    } else {
      CountNamed(cs[..|cs| - 1], name);
      NamedSnoc(cs[..|cs| - 1], cs[|cs| - 1]);
      assert cs == cs[..|cs| - 1] + [cs[|cs| - 1]];
    }
  }

  /** A contested name gets exactly one collision diagnostic; an uncontested or reserved one gets none. */
  lemma OneDiagnosticPerContest(cs: seq<Command>, name: string)
    ensures CountContested(Diagnostics(cs), name) == if !IsReserved(name) && Claims(cs, name) > 1 then 1 else 0
  {
    hide IsReserved, Claimants, NamedIn, CountName, UsableOnes;
    var valid := UsableOnes(cs);
    CountContestedConcat(UnusableDiagnostics(cs), CollisionDiagnostics(valid, valid), name);
    NoContestInUnusable(cs, name);
    ContestedOnce(valid, valid, name);
    ClaimantsCount(valid, name);
    CountNamed(valid, name);
  }

  predicate NamesPlugin(ds: seq<Diagnostic>, plugin: string) {
    exists i :: 0 <= i < |ds| && plugin in ds[i].plugins
  }

  lemma NamesConcat(a: seq<Diagnostic>, b: seq<Diagnostic>, plugin: string)
    ensures NamesPlugin(a, plugin) || NamesPlugin(b, plugin) ==> NamesPlugin(a + b, plugin)
  {
    if NamesPlugin(a, plugin) {
      var i :| 0 <= i < |a| && plugin in a[i].plugins;
      assert (a + b)[i] == a[i];
    } else if NamesPlugin(b, plugin) {
      var i :| 0 <= i < |b| && plugin in b[i].plugins;
      assert (a + b)[|a| + i] == b[i];
    }
  }

  lemma NamesOne(d: Diagnostic, plugin: string)
    requires plugin in d.plugins
    ensures NamesPlugin([d], plugin)
  {
    assert [d][0] == d;
  }

  lemma {:induction false} UnusableIsNamed(cs: seq<Command>, c: Command)
    requires c in cs && !Usable(c)
    ensures NamesPlugin(UnusableDiagnostics(cs), c.plugin)
  {
    hide FindProblem, NamesPlugin;
    var before, last := cs[..|cs| - 1], cs[|cs| - 1];
    assert cs == before + [last];
    var ds := UnusableDiagnostics(before);
    if c == last {
      NamesOne(Unusable(FindProblem(c.name).value, [c.plugin]), c.plugin);
      NamesConcat(ds, [Unusable(FindProblem(c.name).value, [c.plugin])], c.plugin);
    } else {
      UnusableIsNamed(before, c);
      NamesConcat(ds, if Usable(last) then [] else [Unusable(FindProblem(last.name).value, [last.plugin])], c.plugin);
    }
  }

  lemma {:induction false} ClaimantNamed(valid: seq<Command>, c: Command)
    requires c in valid
    ensures c.plugin in Claimants(valid, c.name)
  {
    var n := |valid| - 1;
    assert valid == valid[..n] + [valid[n]];
    if c != valid[n] { ClaimantNamed(valid[..n], c); }
  }

  lemma {:induction false} CollisionIsNamed(valid: seq<Command>, cs: seq<Command>, c: Command)
    requires c in cs && c in valid && !Admissible(valid, c)
    ensures NamesPlugin(CollisionDiagnostics(valid, cs), c.plugin)
  {
    hide IsReserved, Claimants, NamedIn, NamesPlugin;
    var before, last := cs[..|cs| - 1], cs[|cs| - 1];
    assert cs == before + [last];
    var ds, more := CollisionDiagnostics(valid, before), CollisionOf(valid, before, last);
    NamesConcat(ds, more, c.plugin);
    if IsReserved(c.name) {
      if c == last {
        NamesOne(Reserved(c.name, [c.plugin]), c.plugin);
      } else {
        CollisionIsNamed(valid, before, c);
      }
    } else {
      ClaimantNamed(valid, c);
      ContestIsNamed(valid, cs, c);
    }
  }

  /** The one diagnostic of a contested name lists every claimant. */
  lemma {:induction false} ContestIsNamed(valid: seq<Command>, cs: seq<Command>, c: Command)
    requires NamedIn(cs, c.name) || c in cs
    requires !IsReserved(c.name) && |Claimants(valid, c.name)| > 1 && c.plugin in Claimants(valid, c.name)
    ensures NamesPlugin(CollisionDiagnostics(valid, cs), c.plugin)
  {
    hide IsReserved, Claimants, NamedIn, NamesPlugin;
    NamedNonEmpty(cs, c);
    var before, last := cs[..|cs| - 1], cs[|cs| - 1];
    assert cs == before + [last];
    NamedSnoc(before, last);
    NamesConcat(CollisionDiagnostics(valid, before), CollisionOf(valid, before, last), c.plugin);
    if NamedIn(before, c.name) {
      ContestIsNamed(valid, before, c);
    } else {
      NamesOne(Contested(c.name, Claimants(valid, c.name)), c.plugin);
    }
  }

  lemma NamedNonEmpty(cs: seq<Command>, c: Command)
    requires NamedIn(cs, c.name) || c in cs
    ensures cs != [] && NamedIn(cs, c.name)
  {
  }

  /** No candidate is refused silently: its plugin is named in some diagnostic. */
  lemma RefusalsAreAnnounced(cs: seq<Command>, c: Command)
    requires c in cs && !Admits(cs, c)
    ensures NamesPlugin(Diagnostics(cs), c.plugin)
  {
    hide FindProblem, IsReserved, NamesPlugin, UsableOnes, Claimants, CountName, CollisionDiagnostics;
    hide UnusableDiagnostics;
    var valid := UsableOnes(cs);
    NamesConcat(UnusableDiagnostics(cs), CollisionDiagnostics(valid, valid), c.plugin);
    if !Usable(c) {
      UnusableIsNamed(cs, c);
    } else {
      UsableMembers(cs, c);
      ClaimantsCount(valid, c.name);
      CountPositive(valid, c);
      CollisionIsNamed(valid, valid, c);
    }
  }
}
