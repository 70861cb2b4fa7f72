/** Who said what, read from the rendered context blocks alone (src/plugin_context.rs). */
module ContextBlocks {
  import opened Text
  import opened Utf8
  import opened PluginContext

  // ---------- a reader of the text ----------

  const OPENING: string := "[context contributed by extension"
  const CLOSING: string := "\"]\n"

  /** What follows an opening, up to the blank line before the next: a quoted name, and a text on the lines below. */
  function ReadOne(s: string): Contribution {
    var named := if |s| < 2 then "" else s[2..];
    var q := Find(named, CLOSING);
    Contribution(named[..q], if q + 3 <= |named| then named[q + 3..] else "")
  }

  /** Every opening begins a block. */
  function ReadBlocks(s: string): seq<Contribution>
    decreases |s|
  {
    var i := Find(s, OPENING);
    if i + |OPENING| > |s| then [] else
      var rest := s[i + |OPENING|..];
      [ReadOne(UpToNext(rest))] + ReadBlocks(rest)
  }

  /** Up to the blank line before the next opening. */
  function UpToNext(s: string): string {
    var j := Find(s, OPENING);
    if j == |s| then s else s[..if j < 2 then 0 else j - 2]
  }

  /** A name that neither opens nor closes a header. */
  predicate Readable(plugin: string) { Free(plugin) && Find(plugin, CLOSING) == |plugin| }

  predicate AllReadable(cs: seq<Contribution>) {
    forall i :: 0 <= i < |cs| ==> Readable(cs[i].plugin)
  }

  /** The contributions with their texts as they are shown. */
  function Shown(cs: seq<Contribution>): (r: seq<Contribution>)
    ensures |r| == |cs|
  {
    seq(|cs|, i requires 0 <= i < |cs| => Contribution(cs[i].plugin, Neutralize(cs[i].text)))
  }

  // ---------- one block ----------

  /** What a block writes behind its opening. */
  function Rest(c: Contribution): string { " \"" + c.plugin + CLOSING + Neutralize(c.text) }

  /** The block, letter for letter. */
  lemma BlockText(c: Contribution)
    ensures Block(c) == "\n\n[context contributed by extension \"" + c.plugin + "\"]\n" + Neutralize(c.text)
    ensures Block(c) == "\n\n" + OPENING + Rest(c)
  {
    hide Neutralize;
    var body := Neutralize(c.text);
    assert "\n\n[context contributed by extension \"" == "\n\n" + OPENING + " \"";
    assert CLOSING == "\"]" + "\n";
    assert Block(c) == "\n\n" + OPENING + " \"" + c.plugin + CLOSING + body;
    assert "\n\n" + OPENING + Rest(c) == "\n\n" + OPENING + " \"" + c.plugin + CLOSING + body;
  }

  lemma FindIs(s: string, i: nat)
    requires i <= |s| && (forall k :: 0 <= k < i ==> !Occurs(s, k)) && (i < |s| ==> Occurs(s, i))
    ensures Find(s, OPENING) == i
  {
    hide Find;
    FoundOccurs(s);
    forall k | 0 <= k < i ensures !(OPENING <= s[k..]) {
      assert !Occurs(s, k);
    }
    if i < |s| { FindUnique(s, OPENING, i); }
  }

  lemma FoundOccurs(s: string)
    ensures Find(s, OPENING) < |s| ==> Occurs(s, Find(s, OPENING))
    ensures forall k :: 0 <= k < Find(s, OPENING) ==> !Occurs(s, k)
  {
    hide Find;
  }

  lemma ReadOneExactly(c: Contribution)
    requires Free(c.plugin)
    ensures ReadOne(Rest(c)) == Contribution(c.plugin, Neutralize(c.text)) <==> Readable(c.plugin)
  {
    hide Neutralize, Free, Find;
    var p, body := c.plugin, Neutralize(c.text);
    var named := p + CLOSING + body;
    assert Rest(c) == " \"" + named;
    assert Rest(c)[2..] == named;
    NameEnds(p, body);
    if Find(p, CLOSING) == |p| {
      assert named[..|p|] == p && named[|p| + 3..] == body;
    }
  }

  /** The first closing behind a name is its own exactly when the name holds none. */
  lemma NameEnds(p: string, body: string)
    ensures Find(p + CLOSING + body, CLOSING) == |p| <==> Find(p, CLOSING) == |p|
    ensures Find(p + CLOSING + body, CLOSING) <= |p|
  {
    hide Find;
    var named := p + CLOSING + body;
    var q := Find(p, CLOSING);
    assert named[|p|..] == CLOSING + body;
    if q < |p| {
      assert CLOSING <= p[q..];
      assert CLOSING <= named[q..];
    } else {
      forall k | 0 <= k < |p| ensures !(CLOSING <= named[k..]) {
        NoClosing(p, body, k);
      }
      FindUnique(named, CLOSING, |p|);
    }
  }

  lemma NoClosing(p: string, body: string, k: nat)
    requires k < |p| && !(CLOSING <= p[k..])
    ensures !(CLOSING <= (p + CLOSING + body)[k..])
  {
    var t := (p + CLOSING + body)[k..];
    assert t == p[k..] + CLOSING + body;
    if k + 3 <= |p| {
      assert t[..3] == p[k..][..3];
    } else {
      assert t[|p| - k] == '"' && CLOSING[1] == ']' && CLOSING[2] == '\n';
    }
  }

  // ---------- all blocks ----------

  lemma RestOpensNone(c: Contribution, k: nat)
    requires Free(c.plugin) && k <= |Rest(c)|
    ensures !Occurs(Rest(c), k)
  {
    hide Neutralize, Occurs, Free;
    var front, body := " \"" + c.plugin + "\"]", Neutralize(c.text);
    assert Rest(c) == front + ("\n" + body);
    OccursAcrossNewline(front, "\n" + body, k);
    if k < |front| {
      NameHasNone(c.plugin, k);
    } else {
      NeutralizedIsFree(c.text);
      BodyOpensNone(body, k - |front|);
    }
  }

  lemma BodyOpensNone(body: string, k: nat)
    requires Free(body) && k <= |body| + 1
    ensures !Occurs("\n" + body, k)
  {
    SentinelShape();
    var b := "\n" + body;
    if k == 0 {
      BracketStart(b, 0);
    } else {
      assert b[k..] == body[k - 1..];
      assert !Occurs(body, k - 1);
    }
  }

  /** Behind a name that opens no header the next opening is the next block's. */
  lemma NextOpening(c: Contribution, cs: seq<Contribution>)
    requires Free(c.plugin)
    ensures var s := Rest(c) + Render(cs);
            Find(s, OPENING) == if cs == [] then |s| else |Rest(c)| + 2
  {
    hide Rest, Block, Occurs, Free;
    var u, v := Rest(c), Render(cs);
    RenderStartsWithNewline(cs);
    forall k | 0 <= k <= |u + v| ensures Occurs(u + v, k) <==> k >= |u| && Occurs(v, k - |u|) {
      OccursAcrossNewline(u, v, k);
      if k < |u| { RestOpensNone(c, k); }
    }
    if cs == [] {
      EmptyOpens();
      FindIs(u + v, |u + v|);
    } else {
      RenderOpens(cs);
      FindIs(u + v, |u| + 2);
    }
  }

  lemma EmptyOpens()
    ensures !Occurs("", 0)
  {
  }

  lemma RenderOpens(cs: seq<Contribution>)
    requires cs != []
    ensures |Render(cs)| > 2 && !Occurs(Render(cs), 0) && !Occurs(Render(cs), 1) && Occurs(Render(cs), 2)
    ensures Find(Render(cs), OPENING) == 2
    ensures |Render(cs)| >= 2 + |OPENING| && Render(cs)[2 + |OPENING|..] == Rest(cs[0]) + Render(cs[1..])
  {
    hide Rest, Block, Find, Occurs, Render;
    BlockText(cs[0]);
    OneMoreBlock(cs);
    Associate("\n\n" + OPENING, Rest(cs[0]), Render(cs[1..]));
    OpensAtTwo(Rest(cs[0]) + Render(cs[1..]));
  }

  lemma Associate(a: string, b: string, c: string)
    ensures (a + b) + c == a + (b + c)
  {
  }

  lemma OpensAtTwo(x: string)
    ensures var s := "\n\n" + OPENING + x;
            && !Occurs(s, 0) && !Occurs(s, 1) && Occurs(s, 2) && Find(s, OPENING) == 2
            && s[2 + |OPENING|..] == x
  {
    hide Find, Occurs;
    var s := "\n\n" + OPENING + x;
    NoneAtBreak(s);
    OccursAfterBreak(x);
    FindIs(s, 2);
  }

  lemma NoneAtBreak(s: string)
    requires |s| > 2 && s[0] == s[1] == '\n'
    ensures !Occurs(s, 0) && !Occurs(s, 1)
  {
    hide Occurs;
    BracketStart(s, 0);
    BracketStart(s, 1);
  }

  lemma OccursAfterBreak(x: string)
    ensures var s := "\n\n" + OPENING + x;
            s[2..] == OPENING + x && Occurs(s, 2) && s[2 + |OPENING|..] == x
  {
    var s := "\n\n" + OPENING + x;
    assert s == "\n\n" + (OPENING + x);
    assert s[2 + |OPENING|..] == (OPENING + x)[|OPENING|..];
  }

  lemma ReadStep(s: string)
    ensures var i := Find(s, OPENING);
            ReadBlocks(s) == if i + |OPENING| > |s| then [] else
              [ReadOne(UpToNext(s[i + |OPENING|..]))] + ReadBlocks(s[i + |OPENING|..])
  {
    hide Find, ReadOne, UpToNext;
  }

  /** Reading starts over at the next opening, wherever it stands. */
  lemma ReadSkips(u: string, v: string)
    requires Find(u + v, OPENING) == |u| + Find(v, OPENING)
    ensures ReadBlocks(u + v) == ReadBlocks(v)
  {
    hide Find, ReadBlocks;
    var n := Find(v, OPENING) + |OPENING|;
    if n <= |v| {
      SuffixOf(u, v, n);
      ReadAt(u + v, |u| + n, v[n..]);
      ReadAt(v, n, v[n..]);
    } else {
      ReadNone(u + v);
      ReadNone(v);
    }
  }

  lemma ReadAt(s: string, n: nat, rest: string)
    requires Find(s, OPENING) + |OPENING| == n <= |s| && s[n..] == rest
    ensures ReadBlocks(s) == [ReadOne(UpToNext(rest))] + ReadBlocks(rest)
  {
    hide Find, ReadOne, UpToNext, ReadBlocks;
    ReadStep(s);
  }

  lemma ReadNone(s: string)
    requires Find(s, OPENING) + |OPENING| > |s|
    ensures ReadBlocks(s) == []
  {
    hide Find, ReadOne, UpToNext;
  }

  lemma SuffixOf(u: string, v: string, n: nat)
    requires n <= |v|
    ensures |u| + n <= |u + v| && (u + v)[|u| + n..] == v[n..]
  {
  }

  /** Reading a rendered list: its first block, then the rest. */
  lemma ReadFirst(cs: seq<Contribution>)
    requires cs != [] && Free(cs[0].plugin)
    ensures ReadBlocks(Render(cs)) == [ReadOne(Rest(cs[0]))] + ReadBlocks(Render(cs[1..]))
  {
    hide Find, ReadOne, Rest, Block, Render, Free, ReadBlocks;
    var u, v := Rest(cs[0]), Render(cs[1..]);
    RenderOpens(cs);
    ReadStep(Render(cs));
    NextOpening(cs[0], cs[1..]);
    if cs[1..] == [] {
      NothingRendered();
      assert u + v == u;
      NothingRead(u);
    } else {
      RenderOpens(cs[1..]);
      assert (u + v)[..|u|] == u;
      ReadSkips(u, v);
    }
  }

  lemma NothingRendered()
    ensures Render([]) == "" && ReadBlocks("") == []
  {
  }

  lemma NothingRead(u: string)
    requires Find(u, OPENING) == |u|
    ensures ReadBlocks(u) == []
  {
    hide Find;
  }

  /** A name that opens a header is read too short. */
  lemma ForgedName(cs: seq<Contribution>)
    requires cs != [] && !Free(cs[0].plugin)
    ensures ReadBlocks(Render(cs)) != [] && ReadBlocks(Render(cs))[0].plugin != cs[0].plugin
  {
    hide Find, ReadOne, Block, Render, Occurs, Rest, ReadBlocks, UpToNext;
    var p, x := cs[0].plugin, Rest(cs[0]) + Render(cs[1..]);
    RenderOpens(cs);
    ReadStep(Render(cs));
    var k :| 0 <= k <= |p| && Occurs(p, k);
    OpeningInside(cs[0], Render(cs[1..]), k);
    FoundOccurs(x);
    CutShort(x, k);
    ReadShort(UpToNext(x));
  }

  lemma CutShort(x: string, k: nat)
    requires Find(x, OPENING) <= k + 2 && Find(x, OPENING) < |x|
    ensures |UpToNext(x)| <= k
  {
    hide Find;
  }

  lemma OpeningInside(c: Contribution, v: string, k: nat)
    requires k <= |c.plugin| && Occurs(c.plugin, k)
    ensures k + 33 <= |c.plugin| && k + 2 < |Rest(c) + v| && Occurs(Rest(c) + v, k + 2)
  {
    hide Neutralize;
    SentinelShape();
    var x, body := Rest(c) + v, Neutralize(c.text);
    assert x == " \"" + (c.plugin + (CLOSING + body + v));
    assert x[2..] == c.plugin + (CLOSING + body + v);
    assert x[k + 2..] == c.plugin[k..] + (CLOSING + body + v);
  }

  lemma ReadShort(chunk: string)
    ensures |ReadOne(chunk).plugin| <= |chunk|
  {
    hide Find;
  }

  /**
   * The rendered text tells who said what: a reader that knows the form of a header gets back every name with its
   * shown text, in order, if and only if no name opens or closes a header itself.
   */
  lemma {:induction false} ReadsBackExactly(cs: seq<Contribution>)
    ensures ReadBlocks(Render(cs)) == Shown(cs) <==> AllReadable(cs)
  {
    hide ReadOne, Rest, Render, Neutralize, Readable, Free, ReadBlocks;
    if cs == [] {
      NothingRendered();
    } else {
      var c, rest := cs[0], cs[1..];
      ReadsBackExactly(rest);
      assert Shown(cs) == [Contribution(c.plugin, Neutralize(c.text))] + Shown(rest);
      assert AllReadable(cs) <==> Readable(c.plugin) && AllReadable(rest);
      if Free(c.plugin) {
        ReadFirst(cs);
        ReadOneExactly(c);
        SameCons(ReadOne(Rest(c)), Contribution(c.plugin, Neutralize(c.text)), ReadBlocks(Render(rest)), Shown(rest));
      } else {
        ForgedName(cs);
        assert !Readable(c.plugin) by { ReadableIsFree(c.plugin); }
      }
    }
  }

  lemma SameCons<T>(x: T, y: T, a: seq<T>, b: seq<T>)
    ensures [x] + a == [y] + b <==> x == y && a == b
  {
    assert ([x] + a)[0] == x && ([y] + b)[0] == y && ([x] + a)[1..] == a && ([y] + b)[1..] == b;
  }

  lemma ReadableIsFree(plugin: string)
    ensures Readable(plugin) ==> Free(plugin)
  {
  }

  /** So two lists of contributions with such names look alike only if they show the same. */
  lemma RenderTellsApart(a: seq<Contribution>, b: seq<Contribution>)
    requires AllReadable(a) && AllReadable(b)
    ensures Render(a) == Render(b) ==> Shown(a) == Shown(b)
  {
    hide Render, ReadBlocks, AllReadable;
    ReadsBackExactly(a);
    ReadsBackExactly(b);
  }

  // ---------- headers and whole runs ----------

  /** A header and the line break behind it, letter for letter. */
  function HeaderOf(plugin: string): string { "[context contributed by extension \"" + plugin + "\"]\n" }

  /** At the i-th header the text goes on with the i-th name in quotes, and on the next line with its shown text. */
  lemma {:induction false} HeaderNames(cs: seq<Contribution>, i: nat)
    requires i < |cs| == |HeaderStarts(cs, 0)|
    ensures var at := HeaderStarts(cs, 0)[i];
            && at <= |Render(cs)|
            && HeaderOf(cs[i].plugin) + Neutralize(cs[i].text) <= Render(cs)[at..]
    decreases |cs|
  {
    hide Block, Neutralize, Render, HeaderOf;
    var c, rest := cs[0], cs[1..];
    var b, r := Block(c), Render(rest);
    assert Render(cs) == b + r by { OneMoreBlock(cs); }
    BlockLonger(c);
    ShiftedStarts(cs, 0);
    ShiftedStarts(rest, |b|);
    if i == 0 {
      BlockBehindBreak(c);
      assert (b + r)[2..] == b[2..] + r;
    } else {
      HeaderNames(rest, i - 1);
      var at := HeaderStarts(rest, 0)[i - 1];
      assert (b + r)[|b| + at..] == r[at..];
    }
  }

  lemma BlockBehindBreak(c: Contribution)
    ensures |Block(c)| >= 2 && Block(c)[2..] == HeaderOf(c.plugin) + Neutralize(c.text)
  {
    hide Block, Neutralize;
    BlockText(c);
    assert Block(c) == "\n\n" + (HeaderOf(c.plugin) + Neutralize(c.text));
  }

  lemma OneMoreBlock(cs: seq<Contribution>)
    requires cs != []
    ensures Render(cs) == Block(cs[0]) + Render(cs[1..])
  {
    hide Block;
  }

  lemma {:induction false} ShownLookup(cs: seq<Contribution>, plugin: string)
    ensures Lookup(Shown(cs), plugin) ==
            if Lookup(cs, plugin).Some? then Some(Neutralize(Lookup(cs, plugin).value)) else None
  {
    hide Neutralize;
    if cs != [] {
      assert Shown(cs)[1..] == Shown(cs[1..]);
      ShownLookup(cs[1..], plugin);
    }
  }

  predicate ReadableCalls(calls: seq<SetCall>) {
    forall i :: 0 <= i < |calls| ==> Readable(calls[i].plugin)
  }

  lemma {:induction false} StoredAreReadable(calls: seq<SetCall>)
    requires ReadableCalls(calls)
    ensures AllReadable(After(calls))
  {
    hide Readable, SetStep;
    if calls != [] {
      var init, c := calls[..|calls| - 1], calls[|calls| - 1];
      StoredAreReadable(init);
      SetStepReadable(After(init), c.plugin, c.text);
    }
  }

  lemma {:induction false} SetStepReadable(cs: seq<Contribution>, plugin: string, text: string)
    requires AllReadable(cs) && Readable(plugin)
    ensures AllReadable(SetStep(cs, plugin, text))
  {
    hide Readable, ByteLen, Put, Remove;
    PutReadable(cs, plugin, text);
    RemoveReadable(cs, plugin);
  }

  lemma {:induction false} PutReadable(cs: seq<Contribution>, plugin: string, text: string)
    requires AllReadable(cs) && Readable(plugin)
    ensures AllReadable(Put(cs, plugin, text))
  {
    hide Readable, Before;
    if cs != [] { PutReadable(cs[1..], plugin, text); }
  }

  lemma {:induction false} RemoveReadable(cs: seq<Contribution>, plugin: string)
    requires AllReadable(cs)
    ensures AllReadable(Remove(cs, plugin))
  {
    hide Readable;
    if cs != [] { RemoveReadable(cs[1..], plugin); }
  }

  /** After any calls the text shows, under each plugin's name, its last accepted text, and nothing under any other. */
  lemma TextShowsLastTexts(calls: seq<SetCall>, plugin: string)
    requires ReadableCalls(calls)
    ensures Lookup(ReadBlocks(Render(After(calls))), plugin) ==
            if LastAccepted(calls, plugin).Some? then Some(Neutralize(LastAccepted(calls, plugin).value)) else None
  {
    hide ReadBlocks, Render, After, Lookup, LastAccepted, Neutralize, AllReadable, SortedByName, Shown;
    StoredAreReadable(calls);
    ReadsBackExactly(After(calls));
    ShownLookup(After(calls), plugin);
    StoredIsLastAccepted(calls, plugin);
  }

  // ---------- a name that closes its header ----------

  lemma {:induction false} NoBracketNoChange(text: string)
    requires '[' !in text
    ensures Neutralize(text) == text
  {
    if text != "" {
      SentinelShape();
      assert !(HEADER_SENTINEL <= text) by { assert text[0] in text; }
      NoBracketNoChange(text[1..]);
    }
  }

  /** Two different contributions that look alike. */
  lemma ClosingNameCollides()
    ensures Render([Contribution("a\"]\nb", "c")]) == Render([Contribution("a", "b\"]\nc")])
  {
    hide Block, Neutralize;
    var x, y := Contribution("a\"]\nb", "c"), Contribution("a", "b\"]\nc");
    NoBracketNoChange(x.text);
    NoBracketNoChange(y.text);
    BlockText(x);
    BlockText(y);
    assert x.plugin + CLOSING + x.text == y.plugin + CLOSING + y.text;
    assert Block(x) == "\n\n" + OPENING + (" \"" + (x.plugin + CLOSING + x.text));
    assert Block(y) == "\n\n" + OPENING + (" \"" + (y.plugin + CLOSING + y.text));
    assert [x][1..] == [y][1..] == [];
  }

  // ---------- what a body is shown as ----------

  /** Every sentinel in a body is replaced, the first one where it stands, and nothing else is. */
  lemma {:induction false} SentinelsReplaced(a: string, b: string)
    requires forall k :: 0 <= k < |a| ==> !Occurs(a + OPENING + b, k)
    ensures Neutralize(a + OPENING + b) == a + "[context-contributed-by-extension" + Neutralize(b)
  {
    var s := a + OPENING + b;
    if a == "" {
      assert s == OPENING + b && s[|OPENING|..] == b;
    } else {
      assert !Occurs(s, 0) && s[0..] == s;
      assert s[0] == a[0] && s[1..] == a[1..] + OPENING + b;
      forall k | 0 <= k < |a| - 1 ensures !Occurs(a[1..] + OPENING + b, k) {
        assert !Occurs(s, k + 1);
        assert s[k + 1..] == s[1..][k..];
      }
      SentinelsReplaced(a[1..], b);
    }
  }
}
