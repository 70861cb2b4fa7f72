/** A field inside an open amendment is part of its text: when a set or upsert shows (src/agent/brief.rs). */
module FieldExactness {
  import opened Text
  import opened Brief
  import opened BriefRoundTrip
  import opened AmendmentText
  import opened FrontMatter
  import opened FrontMatterLaws
  import opened FieldAmendments

  // ---------- one line in the middle of a body ----------

  predicate Solid(c: char) { !IsWhitespace(c) }

  lemma LeadTrim(b: string, k: string)
    requires !Blank(k)
    ensures TrimStart(b + k) == if Blank(b) then TrimStart(k) else TrimStart(b) + k
  {
    hide IsWhitespace, TrimStart;
    if Blank(b) {
      LeadBlank(b, k);
    } else {
      LeadSolid(b, k);
    }
  }

  lemma LeadBlank(b: string, k: string)
    requires Blank(b)
    ensures TrimStart(b + k) == TrimStart(k)
  {
    hide IsWhitespace, BlankLen, TrimStart;
    var r := TrimStart(k);
    var w := k[..|k| - |r|];
    assert k == w + r;
    BlankConcat(b, w);
    TrimStartUnique(b + w, r);
    assert b + k == (b + w) + r;
  }

  lemma LeadSolid(b: string, k: string)
    requires !Blank(b)
    ensures TrimStart(b + k) == TrimStart(b) + k
  {
    hide IsWhitespace, BlankLen, TrimStart;
    var r := TrimStart(b);
    var w := b[..|b| - |r|];
    assert b == w + r;
    assert r != "" by { assert w + r == if r == "" then w else b; }
    assert (r + k)[0] == r[0];
    TrimStartUnique(w, r + k);
    assert b + k == w + (r + k);
  }

  lemma TailTrim(e: string, r: string)
    requires Blank(e)
    ensures TrimEnd(e + r) == if Blank(r) then "" else e + TrimEnd(r)
  {
    hide IsWhitespace, TrimEnd;
    if Blank(r) {
      TailBlank(e, r);
    } else {
      TailSolid(e, r);
    }
  }

  lemma TailBlank(e: string, r: string)
    requires Blank(e) && Blank(r)
    ensures TrimEnd(e + r) == ""
  {
    hide IsWhitespace, TrimEnd;
    BlankConcat(e, r);
    TrimEndUnique("", e + r);
    assert "" + (e + r) == e + r;
  }

  lemma TailSolid(e: string, r: string)
    requires !Blank(r)
    ensures TrimEnd(e + r) == e + TrimEnd(r)
  {
    hide IsWhitespace, TrimEnd;
    var t, w := TrimEnd(r), r[|TrimEnd(r)|..];
    assert r == t + w;
    assert t != "" by { assert t + w == if t == "" then w else r; }
    SolidEndKept(e, t);
    TrimEndUnique(e + t, w);
    assert e + (t + w) == (e + t) + w;
  }

  lemma SolidEndKept(e: string, t: string)
    requires EndsSolid(t) && t != ""
    ensures EndsSolid(e + t)
  {
    hide IsWhitespace;
    assert (e + t)[|e + t| - 1] == t[|t| - 1];
  }

  /** Trimming around a solid character. */
  lemma TrimAround(x: string, c: char, y: string)
    requires Solid(c)
    ensures Trim(x + [c] + y) == TrimStart(x) + [c] + TrimEnd(y)
  {
    hide IsWhitespace, TrimStart, TrimEnd;
    var a, b := TrimStart(x), TrimEnd(y);
    var w, v := x[..|x| - |a|], y[|b|..];
    var r := a + [c] + b;
    assert x == w + a && y == b + v;
    assert w + r + v == x + [c] + y;
    assert r[0] == if a == "" then c else a[0];
    assert r[|r| - 1] == if b == "" then c else b[|b| - 1];
    TrimUnique(w, r, v);
  }

  predicate WholeLines(u: string) { u == "" || EndsLine(u) }

  /** The lines of a text around one of them. */
  lemma LinesAround(u: string, l: string, e: string, r: string)
    requires WholeLines(u) && NewlineFree(l) && l != "" && l[|l| - 1] != '\r' && LineEnding(e)
    ensures Lines(u + l) == Lines(u) + [l]
    ensures Lines(u + l + (e + r)) == Lines(u) + [l] + Lines(r)
  {
    hide SplitInclusive, StripEol, NewlineFree, EndsLine;
    LineAlone(l);
    LineWithEnding(l, e);
    SplitAppend(u, l);
    SplitAppend(u, (l + e) + r);
    SplitAppend(l + e, r);
    assert u + l + (e + r) == u + ((l + e) + r);
  }

  lemma LineAlone(l: string)
    requires NewlineFree(l) && l != ""
    ensures SplitInclusive(l) == [l] && StripEol(l) == l
  {
    hide SplitInclusive;
    ConcatSingle(l);
    SplitUnique([l]);
    assert l[|l| - 1] in l;
  }

  lemma LineWithEnding(l: string, e: string)
    requires NewlineFree(l) && l != "" && l[|l| - 1] != '\r' && LineEnding(e)
    ensures SplitInclusive(l + e) == [l + e] && StripEol(l + e) == l && EndsLine(l + e)
  {
    hide SplitInclusive;
    var p := l + e;
    EndedLine(l, e);
    ConcatSingle(p);
    SplitUnique([p]);
  }

  lemma EndedLine(l: string, e: string)
    requires NewlineFree(l) && l != "" && l[|l| - 1] != '\r' && LineEnding(e)
    ensures FullLine(l + e) && StripEol(l + e) == l
  {
    var b := if e == "\n" then l else l + "\r";
    assert l + e == b + "\n";
    assert (b + "\n")[..|b|] == b;
    assert (l + "\r")[..|l|] == l;
  }

  lemma UnescapeAround(a: seq<string>, l: string, b: seq<string>)
    ensures UnescapeLines(a + [l] + b) == UnescapeLines(a) + [UnescapeLine(l)] + UnescapeLines(b)
  {
    hide UnescapeLine;
  }

  /** Joined lines that differ in one place are different. */
  lemma JoinsDiffer(a: seq<string>, l: string, m: string, b: seq<string>)
    requires NewlineFreeLines(a) && NewlineFreeLines(b) && NewlineFree(l) && NewlineFree(m) && l != m
    ensures Join(a + [l] + b, "\n") != Join(a + [m] + b, "\n")
  {
    hide Join, NewlineFree;
    var x, y := a + [l] + b, a + [m] + b;
    assert x[|a|] == l && y[|a|] == m;
    if Join(x, "\n") == Join(y, "\n") {
      JoinInjective(x, y);
    }
  }

  // ---------- escapes ----------

  lemma LastOfAppended(x: string, v: string)
    ensures v != "" ==> (x + v)[|x + v| - 1] == v[|v| - 1]
  {
  }

  /** A line that ends in a separator and one character is no marker. */
  lemma ValueIsNotMarker(l: string, c: char)
    requires |l| >= 3 && l[|l| - 3..] == SEP + [c] && Solid(c)
    ensures !IsMarkerLine(l)
  {
    hide IsWhitespace;
    assert l[|l| - 1] == c && l[|l| - 3] == ':';
    var w, v := TrimSplit(l);
    var t := Trim(l);
    assert l == w + t + v;
    LastOfAppended(w + t, v);
    assert |t| >= 3 ==> t[|t| - 3] == l[|l| - 3];
    assert AMENDMENTS_MARKER[|AMENDMENTS_MARKER| - 3] == '-';
  }

  lemma SamePrefix(l: string, c: char, d: char)
    requires Solid(c) && Solid(d)
    ensures StartsWith(l + [c], AMENDMENT_PREFIX) <==> StartsWith(l + [d], AMENDMENT_PREFIX)
  {
    var n := |AMENDMENT_PREFIX|;
    assert AMENDMENT_PREFIX[n - 1] == ' ' && IsWhitespace(' ');
    assert (l + [c])[|l|] == c && (l + [d])[|l|] == d;
    assert |l| >= n ==> (l + [c])[..n] == l[..n] == (l + [d])[..n];
  }

  /** Two values of one character are unescaped alike, so their lines stay different. */
  lemma UnescapedDiffer(u: string, c: char, d: char)
    requires |u| >= 2 && u[|u| - 2..] == SEP && Solid(c) && Solid(d) && c != d
    ensures UnescapeLine(u + [c]) != UnescapeLine(u + [d])
  {
    hide LooksEscaped, IsWhitespace;
    SameEscape(u, c, d);
    EndsDiffer(u, c, d);
  }

  lemma EndsDiffer(u: string, c: char, d: char)
    requires u != "" && c != d
    ensures u + [c] != u + [d] && (u + [c])[1..] != (u + [d])[1..]
  {
    assert (u + [c])[|u|] == c && (u + [d])[|u|] == d;
    assert (u + [c])[1..][|u| - 1] == c && (u + [d])[1..][|u| - 1] == d;
  }

  lemma SameEscape(u: string, c: char, d: char)
    requires |u| >= 2 && u[|u| - 2..] == SEP && Solid(c) && Solid(d)
    ensures LooksEscaped(u + [c]) <==> LooksEscaped(u + [d])
  {
    hide IsStructural, IsWhitespace;
    assert (u + [c])[1..] == u[1..] + [c] && (u + [d])[1..] == u[1..] + [d];
    assert (u + [c])[0] == u[0] == (u + [d])[0];
    if |u| > 2 {
      assert u[1..][|u[1..]| - 2..] == SEP;
      SameStructure(u[1..], c, d);
    } else {
      assert u[0] == ':';
    }
  }

  lemma SameStructure(u: string, c: char, d: char)
    requires |u| >= 2 && u[|u| - 2..] == SEP && Solid(c) && Solid(d)
    ensures IsStructural(u + [c]) <==> IsStructural(u + [d])
  {
    hide IsMarkerLine, StartsWith, IsWhitespace;
    SamePrefix(u, c, d);
    assert (u + [c])[|u| - 2..] == SEP + [c] && (u + [d])[|u| - 2..] == SEP + [d];
    ValueIsNotMarker(u + [c], c);
    ValueIsNotMarker(u + [d], d);
  }

  // ---------- one amendment's text ----------

  lemma KeyNotBlank(key: string)
    ensures !Blank(key + SEP)
  {
    assert (key + SEP)[|key|] == ':';
  }

  /** The trimmed body: whole lines, the field line up to its value, and what follows. */
  lemma BodyTrimmed(b: string, key: string, c: char, e: string, r: string) returns (u: string, k: string)
    requires WholeLines(b) && NewlineFree(key) && Solid(c) && LineEnding(e)
    ensures WholeLines(u) && NewlineFree(k) && |k| >= 2 && k[|k| - 2..] == SEP
    ensures u + k == TrimStart(b + (key + SEP))
    ensures Trim(b + (key + SEP) + [c] + (e + r)) == u + k + [c] + if Blank(r) then "" else e + TrimEnd(r)
  {
    hide IsWhitespace, NewlineFree, TrimStart, TrimEnd;
    var s := key + SEP;
    KeyNotBlank(key);
    LeadTrim(b, s);
    TrimAround(b + s, c, e + r);
    assert Blank(e) by { SpaceIsWhitespace(); }
    TailTrim(e, r);
    KeyTrimmed(key);
    if Blank(b) {
      u, k := "", TrimStart(s);
      assert u + k == k;
    } else {
      u, k := TrimStart(b), s;
      assert u == b[|b| - |u|..];
    }
  }

  lemma KeyTrimmed(key: string)
    requires NewlineFree(key)
    ensures var s, k := key + SEP, TrimStart(key + SEP);
            NewlineFree(s) && s[|s| - 2..] == SEP && NewlineFree(k) && |k| >= 2 && k[|k| - 2..] == SEP
  {
    hide TrimStart, IsWhitespace;
    var s, k := key + SEP, TrimStart(key + SEP);
    var n := |s| - |k|;
    assert forall i :: 0 <= i < n ==> s[..n][i] == s[i];
    assert Blank(s[..n]) && s[n..] == k;
    assert !IsWhitespace(':') by { ColonSolid(); }
    assert s[|key|] == ':';
    assert n <= |key|;
    assert k[|k| - 2..] == s[|s| - 2..];
    assert forall ch :: ch in k ==> ch in s;
  }

  /** The text read from such a body, as joined lines around the value. */
  lemma BodyText(b: string, key: string, c: char, e: string, r: string, u: string, k: string)
    requires WholeLines(u) && NewlineFree(k) && |k| >= 2 && Solid(c) && LineEnding(e)
    requires Trim(b + (key + SEP) + [c] + (e + r)) == u + k + [c] + if Blank(r) then "" else e + TrimEnd(r)
    ensures var after := if Blank(r) then "" else TrimEnd(r);
            Join(UnescapeLines(Lines(Trim(b + (key + SEP) + [c] + (e + r)))), "\n") ==
            Join(UnescapeLines(Lines(u)) + [UnescapeLine(k + [c])] + UnescapeLines(Lines(after)), "\n")
  {
    hide Trim, TrimEnd, Lines, UnescapeLines, UnescapeLine, Join, IsWhitespace, NewlineFree, WholeLines;
    var l := k + [c];
    var after := if Blank(r) then "" else TrimEnd(r);
    assert NewlineFree(l) && l[|l| - 1] != '\r' by { SolidLine(k, c); }
    LinesAround(u, l, e, after);
    assert Lines("") == [] by { NoLines(); }
    assert u + k + [c] == u + l;
    assert u + l + "" == u + l;
    assert Lines(u) + [l] + [] == Lines(u) + [l];
    UnescapeAround(Lines(u), l, Lines(after));
  }

  lemma SolidLine(k: string, c: char)
    requires NewlineFree(k) && Solid(c)
    ensures NewlineFree(k + [c]) && (k + [c])[|k|] != '\r'
  {
  }

  lemma NoLines()
    ensures Lines("") == []
  {
  }

  /** Two values of one character give different texts. */
  lemma TextsDiffer(b: string, key: string, c: char, d: char, e: string, f: string, r: string)
    requires WholeLines(b) && NewlineFree(key) && Solid(c) && Solid(d) && c != d && LineEnding(e) && f == e
    ensures Join(UnescapeLines(Lines(Trim(b + (key + SEP) + [c] + (e + r)))), "\n") !=
            Join(UnescapeLines(Lines(Trim(b + (key + SEP) + [d] + (f + r)))), "\n")
  {
    hide Trim, TrimStart, TrimEnd, Lines, UnescapeLines, UnescapeLine, Join, IsWhitespace, NewlineFree, WholeLines;
    var u, k := BodyTrimmed(b, key, c, e, r);
    var u', k' := BodyTrimmed(b, key, d, e, r);
    SameCut(u, k, u', k');
    BodyText(b, key, c, e, r, u, k);
    BodyText(b, key, d, e, r, u, k);
    var after := if Blank(r) then "" else TrimEnd(r);
    UnescapedDiffer(k, c, d);
    RecoveredNewlineFree(u);
    RecoveredNewlineFree(after);
    UnescapedNewlineFree(k, c);
    UnescapedNewlineFree(k, d);
    JoinsDiffer(UnescapeLines(Lines(u)), UnescapeLine(k + [c]), UnescapeLine(k + [d]), UnescapeLines(Lines(after)));
  }

  /** Whole lines followed by a text without a newline can be cut in one place only. */
  lemma SameCut(u: string, k: string, u': string, k': string)
    requires WholeLines(u) && WholeLines(u') && NewlineFree(k) && NewlineFree(k') && u + k == u' + k'
    ensures u == u' && k == k'
  {
    CutNotLater(u, k, u', k');
    CutNotLater(u', k', u, k);
    assert u == (u + k)[..|u|] && u' == (u' + k')[..|u'|];
    assert k == (u + k)[|u|..] && k' == (u' + k')[|u'|..];
  }

  lemma CutNotLater(u: string, k: string, u': string, k': string)
    requires WholeLines(u') && NewlineFree(k) && u + k == u' + k'
    ensures |u'| <= |u|
  {
    var s := u + k;
    assert forall i :: |u| <= i < |s| ==> s[i] == k[i - |u|] && s[i] in k;
    assert u' != "" ==> s[|u'| - 1] == u'[|u'| - 1];
  }

  lemma UnescapedNewlineFree(k: string, c: char)
    requires NewlineFree(k) && Solid(c)
    ensures NewlineFree(UnescapeLine(k + [c]))
  {
    hide LooksEscaped;
    SolidLine(k, c);
    var l := k + [c];
    assert forall ch :: ch in l[1..] ==> ch in l;
  }

  // ---------- the section it belongs to ----------

  /** What later pieces add to an open section, and the sections they open. */
  lemma {:induction false} Grafted(a: seq<Section>, s: Section, ps: seq<string>)
    ensures var g := FeedAll([Section(0, [])], ps);
            g != [] && FeedAll(a + [s], ps) == a + [Section(s.number, s.body + g[0].body)] + g[1..]
  {
    hide HeadingNumber;
    if ps == [] {
      assert s.body + [] == s.body;
    } else {
      var init, p := ps[..|ps| - 1], ps[|ps| - 1];
      Grafted(a, s, init);
      var g := FeedAll([Section(0, [])], init);
      GraftStep(a, s, g, p);
    }
  }

  lemma GraftStep(a: seq<Section>, s: Section, g: seq<Section>, p: string)
    requires g != []
    ensures var h := Feed(g, p);
            && h != []
            && Feed(a + [Section(s.number, s.body + g[0].body)] + g[1..], p) ==
               a + [Section(s.number, s.body + h[0].body)] + h[1..]
  {
    hide HeadingNumber;
    var t := Section(s.number, s.body + g[0].body);
    var all := a + [t] + g[1..];
    var n := |all| - 1;
    if HeadingNumber(p).Some? {
      var z := [Section(HeadingNumber(p).value, [])];
      assert (g + z)[1..] == g[1..] + z;
      assert all + z == a + [t] + (g[1..] + z);
    } else if |g| == 1 {
      assert all == a + [t];
      assert all[n := Section(t.number, t.body + [p])] == a + [Section(s.number, s.body + (g[0].body + [p]))] + [] by {
        assert s.body + g[0].body + [p] == s.body + (g[0].body + [p]);
      }
    } else {
      var m := |g| - 1;
      assert all[n] == g[m];
      var z := Section(g[m].number, g[m].body + [p]);
      assert g[m := z][1..] == g[1..][m - 1 := z];
      assert all[n := z] == a + [t] + g[1..][m - 1 := z];
    }
  }

  /** Every body collected so far consists of whole lines. */
  predicate WholeBodies(secs: seq<Section>) {
    forall i :: 0 <= i < |secs| ==> WholeLines(Concat(secs[i].body))
  }

  lemma {:induction false} BodiesStayWhole(ps: seq<string>)
    requires forall i :: 0 <= i < |ps| ==> EndsLine(ps[i])
    ensures WholeBodies(FeedAll([], ps))
  {
    hide HeadingNumber, WholeLines, EndsLine, Concat;
    if ps == [] {
      assert WholeBodies([]);
    } else {
      var init, p := ps[..|ps| - 1], ps[|ps| - 1];
      BodiesStayWhole(init);
      FeedKeepsWhole(FeedAll([], init), p);
    }
  }

  lemma FeedKeepsWhole(secs: seq<Section>, p: string)
    requires WholeBodies(secs) && EndsLine(p)
    ensures WholeBodies(Feed(secs, p))
  {
    hide HeadingNumber, WholeLines, EndsLine, Concat;
    assert WholeLines(Concat([])) by { EmptyIsWhole(); }
    if secs != [] {
      WholeAndLine(secs[|secs| - 1].body, p);
    }
  }

  lemma EmptyIsWhole()
    ensures WholeLines(Concat([]))
  {
  }

  lemma WholeAndLine(body: seq<string>, p: string)
    requires EndsLine(p)
    ensures WholeLines(Concat(body + [p]))
  {
    ConcatAppend(body, [p]);
    assert Concat([p]) == p;
    var s := Concat(body) + p;
    assert s[|s| - 1] == p[|p| - 1];
  }

  lemma {:induction false} TailIsSuffix(ps: seq<string>)
    requires TailPieces(ps).Some?
    ensures forall p :: p in TailPieces(ps).value ==> p in ps
  {
    hide IsMarkerLine;
    if !IsMarkerLine(ps[0]) { TailIsSuffix(ps[1..]); }
  }

  // ---------- a line in an open amendment ----------

  predicate FullLines(ps: seq<string>) {
    forall i :: 0 <= i < |ps| ==> FullLine(ps[i])
  }

  function ValueLine(key: string, c: char, e: string): string { key + SEP + [c] + e }

  lemma ValueLineIsField(key: string, c: char, e: string)
    requires NewlineFree(key) && Solid(c) && LineEnding(e)
    ensures ValueLine(key, c, e) == FieldLine(key, [c], e)
  {
    hide IsWhitespace;
    assert Tidy([c]);
    TidyFixed([c]);
  }

  /** The amendment open behind `pre` reads differently for two values of one character. */
  lemma OpenAmendmentDiffers(
      pre: seq<string>, key: string, c: char, d: char, e: string, post: seq<string>)
    requires FullLines(pre) && !NoneOpen(pre) && NewlineFree(key) && !StartsWith(key, AMENDMENT_PREFIX)
    requires Solid(c) && Solid(d) && c != d && LineEnding(e)
    ensures AmendmentsOf(pre + [ValueLine(key, c, e)] + post, true) !=
            AmendmentsOf(pre + [ValueLine(key, d, e)] + post, true)
  {
    hide TailPieces, FeedAll, FinishAll, IsMarkerLine, HeadingNumber, WholeLines, JoinBody, ValueLine;
    var tail := TailPieces(pre).value;
    var secs := FeedAll([], tail);
    TailIsSuffix(pre);
    forall i | 0 <= i < |tail| ensures EndsLine(tail[i]) {
      assert tail[i] in pre;
    }
    BodiesStayWhole(tail);
    var a, s := secs[..|secs| - 1], secs[|secs| - 1];
    assert secs == a + [s];
    var g := FeedAll([Section(0, [])], post);
    OpenReading(pre, a, s, key, c, e, post);
    OpenReading(pre, a, s, key, d, e, post);
    BodiesDiffer(s.body, key, c, d, e, g[0].body);
  }

  lemma BodiesDiffer(body: seq<string>, key: string, c: char, d: char, e: string, more: seq<string>)
    requires WholeLines(Concat(body)) && NewlineFree(key) && Solid(c) && Solid(d) && c != d && LineEnding(e)
    ensures JoinBody(body + [ValueLine(key, c, e)] + more) != JoinBody(body + [ValueLine(key, d, e)] + more)
  {
    hide WholeLines, Concat, Trim, Lines, UnescapeLines, Join;
    BodyConcat(body, key, c, e, more);
    BodyConcat(body, key, d, e, more);
    TextsDiffer(Concat(body), key, c, d, e, e, Concat(more));
  }

  lemma BodyConcat(body: seq<string>, key: string, c: char, e: string, more: seq<string>)
    ensures Concat(body + [ValueLine(key, c, e)] + more) ==
            Concat(body) + (key + SEP) + [c] + (e + Concat(more))
  {
    var p := ValueLine(key, c, e);
    ConcatAppend(body + [p], more);
    ConcatAppend(body, [p]);
    assert Concat([p]) == p;
    assert Concat(body) + (key + SEP + [c] + e) + Concat(more) ==
           Concat(body) + (key + SEP) + [c] + (e + Concat(more));
  }

  /** What is read when the value line stands in the open section `s`. */
  lemma OpenReading(
      pre: seq<string>, a: seq<Section>, s: Section, key: string, c: char, e: string, post: seq<string>)
    requires TailPieces(pre).Some? && FeedAll([], TailPieces(pre).value) == a + [s]
    requires NewlineFree(key) && !StartsWith(key, AMENDMENT_PREFIX) && Solid(c) && LineEnding(e)
    ensures var r := AmendmentsOf(pre + [ValueLine(key, c, e)] + post, true);
            var g := FeedAll([Section(0, [])], post);
            && g != [] && |r| > |a|
            && r[|a|].text == JoinBody(s.body + [ValueLine(key, c, e)] + g[0].body)
  {
    hide TailPieces, FeedAll, IsMarkerLine, HeadingNumber, JoinBody, ValueLine, IsWhitespace;
    var p, tail := ValueLine(key, c, e), TailPieces(pre).value;
    assert HeadingNumber(p).None? by { ValueLineNotHeading(key, c, e); }
    assert pre + [p] + post == pre + ([p] + post);
    TailOfConcat(pre, [p] + post);
    FeedAllConcat([], tail, [p] + post);
    FeedAllConcat(a + [s], [p], post);
    var t := Section(s.number, s.body + [p]);
    FedOpen(a, s, p);
    Grafted(a, t, post);
  }

  lemma FedOpen(a: seq<Section>, s: Section, p: string)
    requires HeadingNumber(p).None?
    ensures FeedAll(a + [s], [p]) == a + [Section(s.number, s.body + [p])]
  {
    hide HeadingNumber;
    assert [p][..0] == [];
    assert FeedAll(a + [s], []) == a + [s];
  }

  lemma ValueLineNotHeading(key: string, c: char, e: string)
    requires NewlineFree(key) && !StartsWith(key, AMENDMENT_PREFIX) && Solid(c) && LineEnding(e)
    ensures HeadingNumber(ValueLine(key, c, e)).None?
  {
    hide HeadingNumber, IsWhitespace, FieldLine;
    ValueLineIsField(key, c, e);
    WrittenLine(key, [c], e);
    FieldNotHeading(ValueLine(key, c, e), key);
  }

  // ---------- set ----------

  predicate OpenAt(content: string, k: nat) {
    k <= |SplitInclusive(content)| && !NoneOpen(SplitInclusive(content)[..k])
  }

  lemma PrefixFull(ps: seq<string>, k: nat)
    requires WellSplit(ps) && k < |ps|
    ensures FullLines(ps[..k])
  {
  }

  /** Inside an open amendment, setting the field to two different characters gives two different readings. */
  lemma SetShows(content: string, key: string, c: char, d: char)
    requires HasKey(SplitInclusive(content), key) && !StartsWith(key, AMENDMENT_PREFIX)
    requires OpenAt(content, FieldFrom(SplitInclusive(content), 1, key)) && Solid(c) && Solid(d) && c != d
    ensures SetField(content, key, [c]).Some? && SetField(content, key, [d]).Some?
    ensures Amendments(SetField(content, key, [c]).value, true) != Amendments(SetField(content, key, [d]).value, true)
  {
    hide FieldLine, IsFence, HasField, Ending, FenceFrom, SplitInclusive, FullLine, Torn, SetField, IsWhitespace;
    hide Amendments, AmendmentsOf, NoneOpen, FieldFrom;
    UpsertIsSet(content, key, [c]);
    UpsertIsSet(content, key, [d]);
    SetReads(content, key, c);
    SetReads(content, key, d);
    var ps, f, i, p := SetShape(content, key, [c]);
    PrefixFull(ps, f);
    OpenAmendmentDiffers(ps[..f], key, c, d, Ending(ps[f]), ps[f + 1..]);
  }

  lemma SetReads(content: string, key: string, c: char)
    requires SetField(content, key, [c]).Some? && Solid(c)
    ensures var ps := SplitInclusive(content);
            var f := FieldFrom(ps, 1, key);
            && f < |ps|
            && Amendments(SetField(content, key, [c]).value, true) ==
               AmendmentsOf(ps[..f] + [ValueLine(key, c, Ending(ps[f]))] + ps[f + 1..], true)
  {
    hide FieldLine, IsFence, HasField, Ending, FenceFrom, SplitInclusive, FullLine, Torn, SetField, IsWhitespace;
    hide Amendments, AmendmentsOf, FieldFrom, ValueLine;
    var ps, f, i, p := SetShape(content, key, [c]);
    ValueLineIsField(key, c, Ending(ps[f]));
    AmendmentsOfContent(SetField(content, key, [c]).value, true);
    assert ps[f := p] == ps[..f] + [p] + ps[f + 1..];
  }

  ghost predicate SetsUnseen(content: string, key: string) {
    forall value :: SetField(content, key, value).Some? ==>
      Amendments(SetField(content, key, value).value, true) == Amendments(content, true)
  }

  /** No set of a field ever shows in the amendments exactly when none of them is open at its line. */
  lemma SetUnseenExactly(content: string, key: string)
    requires HasKey(SplitInclusive(content), key) && !StartsWith(key, AMENDMENT_PREFIX)
    ensures SetsUnseen(content, key) <==> !OpenAt(content, FieldFrom(SplitInclusive(content), 1, key))
  {
    hide SetField, Amendments, NoneOpen, FieldFrom, SplitInclusive, HasKey, FenceFrom, IsWhitespace;
    assert FieldFrom(SplitInclusive(content), 1, key) <= |SplitInclusive(content)| by { FieldInside(content, key); }
    if !OpenAt(content, FieldFrom(SplitInclusive(content), 1, key)) {
      forall value | SetField(content, key, value).Some?
        ensures Amendments(SetField(content, key, value).value, true) == Amendments(content, true)
      {
        SetKeepsAmendments(content, key, value, true);
      }
    } else {
      LettersSolid();
      SetShows(content, key, 'a', 'b');
    }
  }

  lemma FieldInside(content: string, key: string)
    requires HasKey(SplitInclusive(content), key)
    ensures var ps := SplitInclusive(content);
            FieldFrom(ps, 1, key) < FenceFrom(ps, 1) < |ps|
  {
    hide SplitInclusive, IsFence, HasField;
  }

  lemma LettersSolid()
    ensures Solid('a') && Solid('b')
  {
  }

  // ---------- insert ----------

  /** The same for the line an upsert inserts. */
  lemma InsertShows(content: string, key: string, c: char, d: char)
    requires Closed(SplitInclusive(content)) && !HasKey(SplitInclusive(content), key) && NewlineFree(key)
    requires !StartsWith(key, AMENDMENT_PREFIX) && Solid(c) && Solid(d) && c != d
    requires OpenAt(content, FenceFrom(SplitInclusive(content), 1))
    ensures UpsertField(content, key, [c]).Some? && UpsertField(content, key, [d]).Some?
    ensures Amendments(UpsertField(content, key, [c]).value, true) !=
            Amendments(UpsertField(content, key, [d]).value, true)
  {
    hide FieldLine, IsFence, SplitInclusive, FullLine, Torn, UpsertField, IsWhitespace;
    hide Amendments, AmendmentsOf, NoneOpen, FieldFrom, FenceFrom, HasKey;
    InsertReads(content, key, c);
    InsertReads(content, key, d);
    var ps, k, p := InsertShape(content, key, [c]);
    PrefixFull(ps, k);
    OpenAmendmentDiffers(ps[..k], key, c, d, "\n", ps[k..]);
  }

  lemma InsertReads(content: string, key: string, c: char)
    requires Closed(SplitInclusive(content)) && !HasKey(SplitInclusive(content), key) && NewlineFree(key) && Solid(c)
    ensures var ps := SplitInclusive(content);
            var k := FenceFrom(ps, 1);
            && UpsertField(content, key, [c]).Some?
            && Amendments(UpsertField(content, key, [c]).value, true) ==
               AmendmentsOf(ps[..k] + [ValueLine(key, c, "\n")] + ps[k..], true)
  {
    hide FieldLine, IsFence, SplitInclusive, FullLine, Torn, UpsertField, IsWhitespace;
    hide Amendments, AmendmentsOf, FieldFrom, FenceFrom, ValueLine, HasKey;
    var ps, k, p := InsertShape(content, key, [c]);
    ValueLineIsField(key, c, "\n");
    AmendmentsOfContent(UpsertField(content, key, [c]).value, true);
  }

  ghost predicate UpsertsUnseen(content: string, key: string) {
    forall value :: UpsertField(content, key, value).Some? ==>
      Amendments(UpsertField(content, key, value).value, true) == Amendments(content, true)
  }

  /** No upsert into a closed block ever shows exactly when no amendment is open at the place it writes to. */
  lemma UpsertUnseenExactly(content: string, key: string)
    requires Closed(SplitInclusive(content)) && NewlineFree(key) && !StartsWith(key, AMENDMENT_PREFIX)
    ensures UpsertsUnseen(content, key) <==> !OpenAt(content, WritePlace(SplitInclusive(content), key))
  {
    hide UpsertField, Amendments, NoneOpen, FieldFrom, FenceFrom, SplitInclusive, SetField, IsWhitespace;
    var ps := SplitInclusive(content);
    LettersSolid();
    if !OpenAt(content, WritePlace(ps, key)) {
      forall value | UpsertField(content, key, value).Some?
        ensures Amendments(UpsertField(content, key, value).value, true) == Amendments(content, true)
      {
        UpsertKeepsAmendments(content, key, value, true);
      }
    } else if HasKey(ps, key) {
      SetShows(content, key, 'a', 'b');
      UpsertIsSet(content, key, "a");
      UpsertIsSet(content, key, "b");
    } else {
      InsertShows(content, key, 'a', 'b');
    }
  }
}
