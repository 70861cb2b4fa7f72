/** Per-plugin context contributions and their attributed blocks (src/plugin_context.rs). */
module PluginContext {
  import opened Text
  import opened Utf8

  const MAX_CONTEXT_BYTES: nat := 4096
  const HEADER_SENTINEL: string := "[context contributed by extension"
  const DEFANGED: string := "[context-contributed-by-extension"

  /** One entry of the map, which is kept sorted by plugin name. */
  datatype Contribution = Contribution(plugin: string, text: string)

  function Header(plugin: string): string { HEADER_SENTINEL + " \"" + plugin + "\"]" }

  /** `replace`: non-overlapping, left to right. */
  function Neutralize(text: string): string {
    if text == "" then ""
    else if HEADER_SENTINEL <= text then DEFANGED + Neutralize(text[|HEADER_SENTINEL|..])
    else [text[0]] + Neutralize(text[1..])
  }

  // ---------- the sorted map ----------

  predicate Before(a: string, b: string) { TextLe(a, b) && a != b }

  predicate SortedByName(cs: seq<Contribution>) {
    forall i, j :: 0 <= i < j < |cs| ==> Before(cs[i].plugin, cs[j].plugin)
  }

  function Lookup(cs: seq<Contribution>, plugin: string): Option<string> {
    if cs == [] then None
    else if cs[0].plugin == plugin then Some(cs[0].text)
    else Lookup(cs[1..], plugin)
  }

  function Put(cs: seq<Contribution>, plugin: string, text: string): seq<Contribution> {
    if cs == [] then [Contribution(plugin, text)]
    else if cs[0].plugin == plugin then [Contribution(plugin, text)] + cs[1..]
    else if Before(plugin, cs[0].plugin) then [Contribution(plugin, text)] + cs
    else [cs[0]] + Put(cs[1..], plugin, text)
  }

  function Remove(cs: seq<Contribution>, plugin: string): seq<Contribution> {
    if cs == [] then []
    else if cs[0].plugin == plugin then cs[1..]
    else [cs[0]] + Remove(cs[1..], plugin)
  }

  /** An oversized text is refused and changes nothing; the empty text clears. */
  function SetStep(cs: seq<Contribution>, plugin: string, text: string): seq<Contribution> {
    if ByteLen(text) > MAX_CONTEXT_BYTES then cs
    else if text == "" then Remove(cs, plugin)
    else Put(cs, plugin, text)
  }

  function Block(c: Contribution): string { "\n\n" + Header(c.plugin) + "\n" + Neutralize(c.text) }

  function Render(cs: seq<Contribution>): string {
    if cs == [] then "" else Block(cs[0]) + Render(cs[1..])
  }

  class Contributions {
    var entries: seq<Contribution>

    constructor ()
      ensures entries == []
    {
      entries := [];
    }

    /** `None` when refused, else whether the stored text changed. */
    method Set(plugin: string, text: string) returns (changed: Option<bool>)
      requires SortedByName(entries)
      modifies this
      ensures SortedByName(entries) && entries == SetStep(old(entries), plugin, text)
      ensures changed.None? <==> ByteLen(text) > 4096
      ensures changed.Some? ==> (changed.value <==> Lookup(old(entries), plugin) != Lookup(entries, plugin))
      ensures changed.Some? ==> Lookup(entries, plugin) == if text == "" then None else Some(text)
      ensures forall other :: other != plugin ==> Lookup(entries, other) == Lookup(old(entries), other)
    {
      hide Before, ByteLen, Put, Remove, Lookup, SortedByName;
      SetStepWorks(entries, plugin, text);
      if ByteLen(text) > MAX_CONTEXT_BYTES {
        return None;
      }
      var existing := Lookup(entries, plugin);
      if text == "" {
        entries := Remove(entries, plugin);
        return Some(existing.Some?);
      }
      if existing == Some(text) {
        PutSame(entries, plugin, text);
        return Some(false);
      }
      entries := Put(entries, plugin, text);
      changed := Some(true);
    }

    method RenderBlocks() returns (out: string)
      ensures out == Render(entries)
    {
      hide Header, Block, Neutralize;
      out := "";
      assert entries[0..] == entries;
      for i := 0 to |entries|
        invariant Render(entries) == out + Render(entries[i..])
      {
        var c := entries[i];
        RenderStep(out, entries, i);
        out := out + "\n\n";
        out := out + Header(c.plugin);
        out := out + "\n";
        out := out + Neutralize(c.text);
      }
      assert entries[|entries|..] == [];
    }
  }

  lemma RenderStep(out: string, cs: seq<Contribution>, i: nat)
    requires i < |cs|
    ensures out + Render(cs[i..])
         == out + "\n\n" + Header(cs[i].plugin) + "\n" + Neutralize(cs[i].text) + Render(cs[i + 1..])
  {
    hide Header, Neutralize;
    assert cs[i..][0] == cs[i] && cs[i..][1..] == cs[i + 1..];
    Regroup(out, "\n\n", Header(cs[i].plugin), "\n", Neutralize(cs[i].text), Render(cs[i + 1..]));
  }

  lemma Regroup(a: string, b: string, c: string, d: string, e: string, f: string)
    ensures a + ((b + c + d + e) + f) == a + b + c + d + e + f
  {
    var x, y := a + ((b + c + d + e) + f), a + b + c + d + e + f;
    assert |x| == |y|;
    assert a + (b + c + d + e) == a + b + c + d + e;
    assert a + ((b + c + d + e) + f) == (a + (b + c + d + e)) + f;
  }

  lemma BeforeTransitive(a: string, b: string, c: string)
    requires Before(a, b) && Before(b, c)
    ensures Before(a, c)
  {
    hide TextLe;
    TextLeTransitive(a, b, c);
    TextLeTotal(a, b);
  }

  lemma BeforeTotal(a: string, b: string)
    ensures a == b || Before(a, b) || Before(b, a)
    ensures !(Before(a, b) && Before(b, a))
  {
    hide TextLe;
    TextLeTotal(a, b);
  }

  lemma {:induction false} PutWorks(cs: seq<Contribution>, plugin: string, text: string)
    requires SortedByName(cs)
    ensures SortedByName(Put(cs, plugin, text))
    ensures forall k :: 0 <= k < |Put(cs, plugin, text)| ==>
              || Put(cs, plugin, text)[k].plugin == plugin
              || exists j :: 0 <= j < |cs| && cs[j].plugin == Put(cs, plugin, text)[k].plugin
    ensures forall other ::
              Lookup(Put(cs, plugin, text), other) == if other == plugin then Some(text) else Lookup(cs, other)
  {
    hide Before;
    var r := Put(cs, plugin, text);
    if cs == [] {
      assert r[1..] == [];
    } else if cs[0].plugin == plugin {
      assert r[1..] == cs[1..];
    } else if Before(plugin, cs[0].plugin) {
      assert r[1..] == cs;
      forall j | 0 <= j < |cs| ensures Before(plugin, cs[j].plugin) {
        if j > 0 { BeforeTransitive(plugin, cs[0].plugin, cs[j].plugin); }
      }
    } else {
      var rest := Put(cs[1..], plugin, text);
      BeforeTotal(plugin, cs[0].plugin);
      PutWorks(cs[1..], plugin, text);
      assert r[1..] == rest;
      forall k | 0 <= k < |rest| ensures Before(cs[0].plugin, rest[k].plugin) {
        if rest[k].plugin != plugin {
          var j :| 0 <= j < |cs| - 1 && cs[1..][j].plugin == rest[k].plugin;
          assert cs[j + 1] == cs[1..][j];
        }
      }
    }
  }

  lemma {:induction false} LookupAbsent(cs: seq<Contribution>, plugin: string)
    requires forall k :: 0 <= k < |cs| ==> cs[k].plugin != plugin
    ensures Lookup(cs, plugin).None?
  {
    if cs != [] { LookupAbsent(cs[1..], plugin); }
  }

  lemma {:induction false} RemoveWorks(cs: seq<Contribution>, plugin: string)
    requires SortedByName(cs)
    ensures SortedByName(Remove(cs, plugin))
    ensures forall k :: 0 <= k < |Remove(cs, plugin)| ==> Remove(cs, plugin)[k] in cs
    ensures forall other :: Lookup(Remove(cs, plugin), other) == if other == plugin then None else Lookup(cs, other)
  {
    hide Before;
    var r := Remove(cs, plugin);
    if cs == [] {
    } else if cs[0].plugin == plugin {
      forall k | 0 <= k < |r| ensures r[k].plugin != plugin {
        assert r[k] == cs[k + 1];
        BeforeIrreflexive(plugin);
      }
      LookupAbsent(r, plugin);
    } else {
      RemoveWorks(cs[1..], plugin);
      var rest := Remove(cs[1..], plugin);
      assert r[1..] == rest;
      forall k | 0 <= k < |rest| ensures Before(cs[0].plugin, rest[k].plugin) && rest[k] in cs {
        var j :| 0 <= j < |cs| - 1 && cs[1..][j] == rest[k];
        assert cs[j + 1] == rest[k];
      }
    }
  }

  lemma BeforeIrreflexive(a: string)
    ensures !Before(a, a)
  {
  }

  lemma {:induction false} PutSame(cs: seq<Contribution>, plugin: string, text: string)
    requires SortedByName(cs) && Lookup(cs, plugin) == Some(text)
    ensures Put(cs, plugin, text) == cs
  {
    hide Before;
    if cs[0].plugin == plugin {
      assert cs == [cs[0]] + cs[1..];
    } else {
      assert Before(cs[0].plugin, plugin) by {
        LookupPresent(cs[1..], plugin);
        var j :| 0 <= j < |cs| - 1 && cs[1..][j].plugin == plugin;
        assert cs[j + 1] == cs[1..][j];
      }
      BeforeTotal(plugin, cs[0].plugin);
      PutSame(cs[1..], plugin, text);
    }
  }

  lemma {:induction false} LookupPresent(cs: seq<Contribution>, plugin: string)
    requires Lookup(cs, plugin).Some?
    ensures exists j :: 0 <= j < |cs| && cs[j].plugin == plugin
  {
    if cs[0].plugin != plugin {
      LookupPresent(cs[1..], plugin);
      var j :| 0 <= j < |cs| - 1 && cs[1..][j].plugin == plugin;
      assert cs[j + 1] == cs[1..][j];
    }
  }

  lemma SetStepWorks(cs: seq<Contribution>, plugin: string, text: string)
    requires SortedByName(cs)
    ensures SortedByName(SetStep(cs, plugin, text))
    ensures forall other :: other != plugin ==> Lookup(SetStep(cs, plugin, text), other) == Lookup(cs, other)
    ensures ByteLen(text) <= MAX_CONTEXT_BYTES ==>
              Lookup(SetStep(cs, plugin, text), plugin) == if text == "" then None else Some(text)
  {
    hide SortedByName, ByteLen, Put, Remove, Lookup;
    if ByteLen(text) <= MAX_CONTEXT_BYTES {
      if text == "" { RemoveWorks(cs, plugin); } else { PutWorks(cs, plugin, text); }
    }
  }

  // ---------- only the last accepted text counts ----------

  datatype SetCall = SetCall(plugin: string, text: string)

  function After(calls: seq<SetCall>): seq<Contribution> {
    if calls == [] then [] else
      var c := calls[|calls| - 1]; SetStep(After(calls[..|calls| - 1]), c.plugin, c.text)
  }

  /** The plugin's last text within the bound; an empty one counts as none. */
  function LastAccepted(calls: seq<SetCall>, plugin: string): Option<string> {
    if calls == [] then None else
      var c := calls[|calls| - 1];
      if c.plugin == plugin && ByteLen(c.text) <= MAX_CONTEXT_BYTES then (if c.text == "" then None else Some(c.text))
      else LastAccepted(calls[..|calls| - 1], plugin)
  }

  lemma {:induction false} StoredIsLastAccepted(calls: seq<SetCall>, plugin: string)
    ensures SortedByName(After(calls)) && Lookup(After(calls), plugin) == LastAccepted(calls, plugin)
  {
    hide SortedByName, ByteLen, SetStep, Lookup;
    if calls == [] {
      EmptyMap(plugin);
    } else {
      var init, c := calls[..|calls| - 1], calls[|calls| - 1];
      StoredIsLastAccepted(init, plugin);
      SetStepWorks(After(init), c.plugin, c.text);
      if ByteLen(c.text) > MAX_CONTEXT_BYTES { RefusedKeeps(After(init), c); }
    }
  }

  lemma RefusedKeeps(cs: seq<Contribution>, c: SetCall)
    requires ByteLen(c.text) > MAX_CONTEXT_BYTES
    ensures SetStep(cs, c.plugin, c.text) == cs
  {
  }

  lemma EmptyMap(plugin: string)
    ensures SortedByName([]) && Lookup([], plugin).None?
  {
  }

  /** Sorted maps with the same lookups are the same. */
  lemma {:induction false} SortedUnique(a: seq<Contribution>, b: seq<Contribution>)
    requires SortedByName(a) && SortedByName(b) && forall p :: Lookup(a, p) == Lookup(b, p)
    ensures a == b
  {
    hide Before;
    assert a != [] ==> Lookup(a, a[0].plugin).Some?;
    assert b != [] ==> Lookup(b, b[0].plugin).Some?;
    if a != [] && b != [] {
      HeadsEqual(a, b);
      HeadsEqual(b, a);
      BeforeTotal(a[0].plugin, b[0].plugin);
      var p := a[0].plugin;
      assert Lookup(a, p) == Lookup(b, p);
      TailAbsent(a);
      TailAbsent(b);
      forall q ensures Lookup(a[1..], q) == Lookup(b[1..], q) {
        assert Lookup(a, q) == Lookup(b, q);
      }
      SortedUnique(a[1..], b[1..]);
      assert a == [a[0]] + a[1..] && b == [b[0]] + b[1..];
    }
  }

  lemma TailAbsent(a: seq<Contribution>)
    requires SortedByName(a) && a != []
    ensures Lookup(a[1..], a[0].plugin).None?
  {
    hide Before;
    BeforeIrreflexive(a[0].plugin);
    forall k | 0 <= k < |a| - 1 ensures a[1..][k].plugin != a[0].plugin {
      assert a[1..][k] == a[k + 1];
    }
    LookupAbsent(a[1..], a[0].plugin);
  }

  lemma HeadsEqual(a: seq<Contribution>, b: seq<Contribution>)
    requires SortedByName(b) && a != [] && b != [] && forall p :: Lookup(a, p) == Lookup(b, p)
    ensures a[0].plugin == b[0].plugin || Before(b[0].plugin, a[0].plugin)
  {
    hide Before;
    var p := a[0].plugin;
    assert Lookup(a, p) == Lookup(b, p);
    LookupPresent(b, p);
    var j :| 0 <= j < |b| && b[j].plugin == p;
  }

  /** The rendered blocks depend only on each plugin's last accepted text. */
  lemma RenderingDependsOnLastTexts(a: seq<SetCall>, b: seq<SetCall>)
    requires forall p :: LastAccepted(a, p) == LastAccepted(b, p)
    ensures Render(After(a)) == Render(After(b))
  {
    hide SortedByName, LastAccepted, Lookup, After, Render;
    forall p ensures Lookup(After(a), p) == Lookup(After(b), p) {
      StoredIsLastAccepted(a, p);
      StoredIsLastAccepted(b, p);
    }
    StoredIsLastAccepted(a, "");
    StoredIsLastAccepted(b, "");
    SortedUnique(After(a), After(b));
  }

  // ---------- the header cannot be forged ----------

  predicate Occurs(s: string, k: int) { 0 <= k <= |s| && HEADER_SENTINEL <= s[k..] }

  predicate Free(s: string) { forall k :: 0 <= k <= |s| ==> !Occurs(s, k) }

  lemma SentinelShape()
    ensures |HEADER_SENTINEL| == |DEFANGED| == 33
    ensures HEADER_SENTINEL[0] == '[' && DEFANGED[0] == '['
    ensures forall i :: 0 < i < 33 ==> HEADER_SENTINEL[i] != '[' && DEFANGED[i] != '['
    ensures HEADER_SENTINEL[8] == ' ' && DEFANGED[8] == '-'
    ensures forall i :: 0 <= i < 33 ==> HEADER_SENTINEL[i] != '\n' && HEADER_SENTINEL[i] != '"'
  {
  }

  /** Text without an opening bracket comes through a replacement only if it was there before. */
  lemma {:induction false} PlainPrefixSurvives(p: string, u: string)
    requires '[' !in p && p <= Neutralize(u)
    ensures p <= u
  {
    if p != "" {
      var r := Neutralize(u);
      ReplacedStart(u);
      assert p[0] in p && p[0] == r[0];
      assert !(HEADER_SENTINEL <= u);
      assert r[1..] == Neutralize(u[1..]);
      assert p[1..] <= r[1..];
      PlainPrefixSurvives(p[1..], u[1..]);
      assert p == [p[0]] + p[1..] && u == [u[0]] + u[1..];
    }
  }

  lemma ReplacedStart(u: string)
    ensures HEADER_SENTINEL <= u ==> Neutralize(u) != "" && Neutralize(u)[0] == '['
  {
    SentinelShape();
  }

  /** The sentinel holds no newline and no quotation mark. */
  lemma NoSentinelOver(t: string, m: nat)
    requires m < 33 && m < |t| && (t[m] == '\n' || t[m] == '"')
    ensures !(HEADER_SENTINEL <= t)
  {
    SentinelShape();
    assert HEADER_SENTINEL[m] != t[m];
  }

  /** The header sentinel never occurs in a neutralized body. */
  lemma {:induction false} NeutralizedIsFree(text: string)
    ensures Free(Neutralize(text))
  {
    hide Occurs;
    var r := Neutralize(text);
    if text == "" {
      EmptyFree(0);
    } else if HEADER_SENTINEL <= text {
      NeutralizedIsFree(text[|HEADER_SENTINEL|..]);
      DefangedFree(Neutralize(text[|HEADER_SENTINEL|..]));
    } else {
      var rest := Neutralize(text[1..]);
      NeutralizedIsFree(text[1..]);
      NoForgedStart(text);
      forall k | 0 < k <= |r| ensures !Occurs(r, k) { OccursTail(text[0], rest, k); }
    }
  }

  lemma OccursTail(c: char, rest: string, k: nat)
    requires 0 < k <= |rest| + 1
    ensures Occurs([c] + rest, k) <==> Occurs(rest, k - 1)
  {
    assert ([c] + rest)[k..] == rest[k - 1..];
  }

  lemma DefangedFree(rest: string)
    requires Free(rest)
    ensures Free(DEFANGED + rest)
  {
    SentinelShape();
    var r := DEFANGED + rest;
    forall k | 0 <= k <= |r| ensures !Occurs(r, k) {
      if k < 33 {
        assert r[k] == DEFANGED[k] && r[8] == '-';
        BracketStart(r, k);
      } else {
        assert r[k..] == rest[k - 33..];
        assert !Occurs(rest, k - 33);
      }
    }
  }

  /** An occurrence starts with a bracket and has a space eight characters on. */
  lemma BracketStart(s: string, k: nat)
    requires k < |s|
    ensures Occurs(s, k) ==> s[k] == '[' && k + 8 < |s| && s[k + 8] == ' '
  {
    SentinelShape();
    var t := s[k..];
    if HEADER_SENTINEL <= t {
      assert t[0] == HEADER_SENTINEL[0] && t[8] == HEADER_SENTINEL[8];
    }
  }

  lemma NoForgedStart(text: string)
    requires text != "" && !(HEADER_SENTINEL <= text)
    ensures !Occurs(Neutralize(text), 0)
  {
    SentinelShape();
    var r, tail := Neutralize(text), HEADER_SENTINEL[1..];
    assert r[0..] == r && r[1..] == Neutralize(text[1..]);
    assert '[' !in tail;
    assert HEADER_SENTINEL == [HEADER_SENTINEL[0]] + tail && text == [text[0]] + text[1..];
    if HEADER_SENTINEL <= r {
      assert tail <= r[1..] && text[0] == r[0] == HEADER_SENTINEL[0];
      PlainPrefixSurvives(tail, text[1..]);
    }
  }

  /** A body without the sentinel is left alone. */
  lemma {:induction false} FreeTextUnchanged(text: string)
    requires Free(text)
    ensures Neutralize(text) == text
  {
    if text != "" {
      assert !Occurs(text, 0) && text[0..] == text;
      forall k | 0 <= k <= |text| - 1 ensures !Occurs(text[1..], k) {
        assert !Occurs(text, k + 1);
        assert text[1..][k..] == text[k + 1..];
      }
      FreeTextUnchanged(text[1..]);
    }
  }

  lemma NeutralizeIdempotent(text: string)
    ensures Neutralize(Neutralize(text)) == Neutralize(text)
  {
    NeutralizedIsFree(text);
    FreeTextUnchanged(Neutralize(text));
  }

  // ---------- exactly one header per contribution ----------

  /** Where the headers stand, when the blocks start at `at`. */
  function HeaderStarts(cs: seq<Contribution>, at: nat): seq<nat> {
    if cs == [] then [] else [at + 2] + HeaderStarts(cs[1..], at + |Block(cs[0])|)
  }

  /** A newline keeps occurrences apart. */
  lemma OccursAcrossNewline(a: string, b: string, k: nat)
    requires k <= |a + b| && (b == "" || b[0] == '\n')
    ensures Occurs(a + b, k) <==> if k < |a| then Occurs(a, k) else Occurs(b, k - |a|)
  {
    var s := a + b;
    SentinelShape();
    if k >= |a| {
      assert s[k..] == b[k - |a|..];
    } else {
      var t, u := s[k..], a[k..];
      assert t == u + b;
      if |u| >= 33 {
        assert t[..33] == u[..33];
      } else if b != "" {
        NoSentinelOver(t, |u|);
      }
    }
  }

  /** Past the sentinel itself no header contains it, unless the name does. */
  lemma HeaderHasOne(plugin: string, k: nat)
    requires Free(plugin) && k <= |Header(plugin)|
    ensures Occurs(Header(plugin), k) <==> k == 0
  {
    var h := Header(plugin);
    SentinelShape();
    var rest := " \"" + plugin + "\"]";
    assert h == HEADER_SENTINEL + rest;
    assert h[0..] == h;
    if 0 < k < 33 {
      assert h[k] == HEADER_SENTINEL[k];
      BracketStart(h, k);
    } else if k >= 33 {
      assert h[k..] == rest[k - 33..];
      NameHasNone(plugin, k - 33);
    }
  }

  lemma NameHasNone(plugin: string, j: nat)
    requires Free(plugin) && j <= |plugin| + 4
    ensures !Occurs(" \"" + plugin + "\"]", j)
  {
    var rest := " \"" + plugin + "\"]";
    SentinelShape();
    if j < |rest| { BracketStart(rest, j); }
    var t := rest[j..];
    if 2 <= j <= |plugin| + 1 {
      var u := plugin[j - 2..];
      assert t == u + "\"]";
      assert !Occurs(plugin, j - 2);
      if |u| >= 33 {
        assert t[..33] == u[..33];
      } else {
        NoSentinelOver(t, |u|);
      }
    } else if j < |rest| {
      assert rest[j] == ' ' || rest[j] == '"' || rest[j] == ']';
    }
  }

  /** A block contains the sentinel exactly where its header starts. */
  lemma BlockHasOne(c: Contribution, k: nat)
    requires Free(c.plugin) && k <= |Block(c)|
    ensures Occurs(Block(c), k) <==> k == 2
  {
    hide Neutralize;
    var h, body := Header(c.plugin), Neutralize(c.text);
    var front := "\n\n" + h;
    assert Block(c) == front + ("\n" + body);
    OccursAcrossNewline(front, "\n" + body, k);
    NeutralizedIsFree(c.text);
    SentinelShape();
    if k >= |front| {
      var b := "\n" + body;
      if k == |front| {
        BracketStart(b, 0);
      } else {
        assert b[k - |front|..] == body[k - |front| - 1..];
        assert !Occurs(body, k - |front| - 1);
      }
    } else if k < 2 {
      BracketStart(front, k);
    } else {
      assert front[k..] == h[k - 2..];
      HeaderHasOne(c.plugin, k - 2);
    }
  }

  predicate FreeNames(cs: seq<Contribution>) {
    forall i :: 0 <= i < |cs| ==> Free(cs[i].plugin)
  }

  /** In the rendered text the sentinel occurs exactly at the headers: once per contribution, in sorted order. */
  lemma {:induction false} OneHeaderEach(cs: seq<Contribution>, k: nat)
    requires FreeNames(cs) && k <= |Render(cs)|
    ensures Occurs(Render(cs), k) <==> k in HeaderStarts(cs, 0)
    decreases |cs|
  {
    hide Block, Free, Occurs;
    if cs == [] {
      EmptyFree(k);
    } else {
      var c, rest := cs[0], cs[1..];
      RenderStartsWithNewline(rest);
      OccursAcrossNewline(Block(c), Render(rest), k);
      ShiftedStarts(rest, |Block(c)|);
      StartsPositive(rest, |Block(c)|);
      BlockLonger(c);
      if k < |Block(c)| {
        BlockHasOne(c, k);
      } else {
        OneHeaderEach(rest, k - |Block(c)|);
        ShiftMember(HeaderStarts(rest, 0), HeaderStarts(rest, |Block(c)|), |Block(c)|, k);
      }
    }
  }

  lemma EmptyFree(k: nat)
    requires k <= |Render([])|
    ensures !Occurs(Render([]), k)
  {
    SentinelShape();
  }

  lemma BlockLonger(c: Contribution)
    ensures |Block(c)| > 2 && Block(c)[0] == '\n'
  {
  }

  lemma RenderStartsWithNewline(cs: seq<Contribution>)
    ensures Render(cs) == "" || Render(cs)[0] == '\n'
  {
    hide Block;
    if cs != [] { BlockLonger(cs[0]); }
  }

  lemma {:induction false} ShiftedStarts(cs: seq<Contribution>, at: nat)
    ensures |HeaderStarts(cs, at)| == |HeaderStarts(cs, 0)| == |cs|
    ensures forall i :: 0 <= i < |cs| ==> HeaderStarts(cs, at)[i] == HeaderStarts(cs, 0)[i] + at
    decreases |cs|
  {
    hide Block;
    if cs != [] {
      ShiftedStarts(cs[1..], at + |Block(cs[0])|);
      ShiftedStarts(cs[1..], 0 + |Block(cs[0])|);
    }
  }

  lemma {:induction false} StartsPositive(cs: seq<Contribution>, at: nat)
    ensures forall i :: 0 <= i < |HeaderStarts(cs, at)| ==> HeaderStarts(cs, at)[i] >= at + 2
    decreases |cs|
  {
    hide Block;
    if cs != [] { StartsPositive(cs[1..], at + |Block(cs[0])|); }
  }

  lemma ShiftMember(a: seq<nat>, b: seq<nat>, d: nat, k: nat)
    requires |a| == |b| && (forall i :: 0 <= i < |a| ==> b[i] == a[i] + d) && k >= d
    ensures k - d in a <==> k in b
  {
    if k - d in a {
      var i :| 0 <= i < |a| && a[i] == k - d;
      assert b[i] == k;
    }
  }

  /** Header `i` names contribution `i`, and its position is the `i`-th occurrence. */
  lemma {:induction false} HeadersInOrder(cs: seq<Contribution>, i: nat)
    requires i < |cs|
    ensures |HeaderStarts(cs, 0)| == |cs|
    ensures var at := HeaderStarts(cs, 0)[i]; at <= |Render(cs)| && Header(cs[i].plugin) <= Render(cs)[at..]
    ensures i > 0 ==> HeaderStarts(cs, 0)[i - 1] < HeaderStarts(cs, 0)[i]
    decreases |cs|
  {
    hide Block, Header;
    var c, rest := cs[0], cs[1..];
    var b, r := Block(c), Render(rest);
    ShiftedStarts(rest, |b|);
    StartsPositive(rest, |b|);
    BlockLonger(c);
    if i == 0 {
      BlockHeader(c);
      assert (b + r)[2..] == b[2..] + r;
    } else {
      HeadersInOrder(rest, i - 1);
      var at := HeaderStarts(rest, 0)[i - 1];
      assert (b + r)[|b| + at..] == r[at..];
    }
  }

  lemma BlockHeader(c: Contribution)
    ensures |Block(c)| >= 2 && Header(c.plugin) <= Block(c)[2..]
  {
    hide Header, Neutralize;
    assert Block(c)[2..] == Header(c.plugin) + ("\n" + Neutralize(c.text));
  }

  // ---------- size ----------

  lemma {:induction false} NeutralizeKeepsSize(text: string)
    ensures ByteLen(Neutralize(text)) == ByteLen(text)
  {
    hide ByteLen;
    if text == "" {
    } else if HEADER_SENTINEL <= text {
      var rest := text[|HEADER_SENTINEL|..];
      NeutralizeKeepsSize(rest);
      assert text == HEADER_SENTINEL + rest;
      ByteLenAppend(HEADER_SENTINEL, rest);
      ByteLenAppend(DEFANGED, Neutralize(rest));
      SentinelSize();
    } else {
      NeutralizeKeepsSize(text[1..]);
      assert text == [text[0]] + text[1..];
      ByteLenAppend([text[0]], text[1..]);
      ByteLenAppend([text[0]], Neutralize(text[1..]));
    }
  }

  lemma {:induction false} AsciiSize(s: string)
    requires forall i :: 0 <= i < |s| ==> s[i] < '\U{80}'
    ensures ByteLen(s) == |s|
  {
    if s != "" { AsciiSize(s[1..]); }
  }

  lemma SentinelSize()
    ensures ByteLen(HEADER_SENTINEL) == ByteLen(DEFANGED)
  {
    hide ByteLen;
    assert |HEADER_SENTINEL| == |DEFANGED|;
    AsciiSize(HEADER_SENTINEL);
    AsciiSize(DEFANGED);
  }

  function HeaderBytes(cs: seq<Contribution>): nat {
    if cs == [] then 0 else ByteLen("\n\n" + Header(cs[0].plugin) + "\n") + HeaderBytes(cs[1..])
  }

  predicate Bounded(cs: seq<Contribution>) {
    forall i :: 0 <= i < |cs| ==> ByteLen(cs[i].text) <= 4096
  }

  /** The whole text is at most the headers plus 4096 bytes for each contribution. */
  lemma {:induction false} RenderedSize(cs: seq<Contribution>)
    requires Bounded(cs)
    ensures ByteLen(Render(cs)) <= HeaderBytes(cs) + 4096 * |cs|
  {
    hide Header, Neutralize, ByteLen;
    if cs == [] {
      assert ByteLen("") == 0 by { NoBytes(); }
    } else {
      var c := cs[0];
      var front := "\n\n" + Header(c.plugin) + "\n";
      ByteLenAppend(Block(c), Render(cs[1..]));
      assert Block(c) == front + Neutralize(c.text);
      ByteLenAppend(front, Neutralize(c.text));
      NeutralizeKeepsSize(c.text);
      RenderedSize(cs[1..]);
    }
  }

  lemma NoBytes()
    ensures ByteLen("") == 0
  {
  }

  /** Whatever is set, every stored text is within the bound. */
  lemma {:induction false} StoredAreBounded(calls: seq<SetCall>)
    ensures Bounded(After(calls))
  {
    hide ByteLen;
    if calls != [] {
      var init, c := calls[..|calls| - 1], calls[|calls| - 1];
      StoredAreBounded(init);
      if ByteLen(c.text) <= MAX_CONTEXT_BYTES {
        if c.text == "" { RemoveBounded(After(init), c.plugin); } else { PutBounded(After(init), c.plugin, c.text); }
      }
    }
  }

  lemma {:induction false} PutBounded(cs: seq<Contribution>, plugin: string, text: string)
    requires Bounded(cs) && ByteLen(text) <= MAX_CONTEXT_BYTES
    ensures Bounded(Put(cs, plugin, text))
  {
    hide ByteLen, Before;
    if cs != [] { PutBounded(cs[1..], plugin, text); }
  }

  lemma {:induction false} RemoveBounded(cs: seq<Contribution>, plugin: string)
    requires Bounded(cs)
    ensures Bounded(Remove(cs, plugin))
  {
    hide ByteLen;
    if cs != [] { RemoveBounded(cs[1..], plugin); }
  }
}
