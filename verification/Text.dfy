/** Text as the repository sees it: Unicode scalar values, split and trimmed the way Rust's `str` does. */
module Text {
  datatype Option<+T> = None | Some(value: T)

  /** Unicode White_Space, as used by `char::is_whitespace`. */
  predicate IsWhitespace(c: char) {
    || '\t' <= c <= '\r' || c == ' ' || c == '\U{85}' || c == '\U{A0}' || c == '\U{1680}'
    || '\U{2000}' <= c <= '\U{200A}' || c == '\U{2028}' || c == '\U{2029}'
    || c == '\U{202F}' || c == '\U{205F}' || c == '\U{3000}'
  }

  const WHITE_SPACE: seq<char> := [
    '\t', '\n', '\U{B}', '\U{C}', '\r', ' ', '\U{85}', '\U{A0}', '\U{1680}',
    '\U{2000}', '\U{2001}', '\U{2002}', '\U{2003}', '\U{2004}', '\U{2005}', '\U{2006}', '\U{2007}', '\U{2008}',
    '\U{2009}', '\U{200A}', '\U{2028}', '\U{2029}', '\U{202F}', '\U{205F}', '\U{3000}']

  /** Exactly the 25 characters of that property. */
  lemma WhitespaceExactly(c: char)
    ensures IsWhitespace(c) <==> c in WHITE_SPACE
  {
    assert '\t' as int == 9 && '\n' as int == 10 && '\r' as int == 13;
    if '\U{2000}' <= c <= '\U{200A}' { assert WHITE_SPACE[9 + (c as int - 0x2000)] == c; }
    if '\t' <= c <= '\r' { assert WHITE_SPACE[c as int - 9] == c; }
    assert WHITE_SPACE[5] == ' ' && WHITE_SPACE[6] == '\U{85}' && WHITE_SPACE[7] == '\U{A0}';
    assert WHITE_SPACE[8] == '\U{1680}';
    assert WHITE_SPACE[20] == '\U{2028}' && WHITE_SPACE[21] == '\U{2029}' && WHITE_SPACE[22] == '\U{202F}';
    assert WHITE_SPACE[23] == '\U{205F}' && WHITE_SPACE[24] == '\U{3000}';
  }

  predicate Blank(s: string) {
    forall i :: 0 <= i < |s| ==> IsWhitespace(s[i])
  }

  predicate StartsSolid(s: string) {
    s == "" || !IsWhitespace(s[0])
  }

  predicate EndsSolid(s: string) {
    s == "" || !IsWhitespace(s[|s| - 1])
  }

  function BlankLen(s: string): (n: nat)
    ensures n <= |s|
    ensures forall i :: 0 <= i < n ==> IsWhitespace(s[i])
    ensures n < |s| ==> !IsWhitespace(s[n])
  {
    if s != "" && IsWhitespace(s[0]) then 1 + BlankLen(s[1..]) else 0
  }

  function TrimStart(s: string): (r: string)
    ensures |r| <= |s| && s[|s| - |r|..] == r
    ensures Blank(s[..|s| - |r|]) && StartsSolid(r)
  {
    s[BlankLen(s)..]
  }

  function TrimEnd(s: string): (r: string)
    ensures r <= s
    ensures Blank(s[|r|..]) && EndsSolid(r)
  {
    if s != "" && IsWhitespace(s[|s| - 1]) then TrimEnd(s[..|s| - 1]) else s
  }

  function Trim(s: string): (r: string)
    ensures StartsSolid(r) && EndsSolid(r)
  {
    TrimEnd(TrimStart(s))
  }

  lemma TrimStartUnique(w: string, r: string)
    requires Blank(w) && StartsSolid(r)
    ensures TrimStart(w + r) == r
  {
    hide IsWhitespace;
    var s := w + r;
    assert forall i :: 0 <= i < |w| ==> s[i] == w[i];
    assert forall i :: |w| <= i < |s| ==> s[i] == r[i - |w|];
    assert s[|w|..] == r;
  }

  lemma {:induction false} TrimEndUnique(r: string, w: string)
    requires Blank(w) && EndsSolid(r)
    ensures TrimEnd(r + w) == r
  {
    hide IsWhitespace;
    if w == "" {
      assert r + w == r;
    } else {
      TrimEndUnique(r, w[..|w| - 1]);
      assert (r + w)[..|r + w| - 1] == r + w[..|w| - 1];
      assert (r + w)[|r + w| - 1] == w[|w| - 1];
    }
  }

  /** Trimming is determined by any split of the text into blank, solid-edged and blank parts. */
  lemma TrimUnique(w: string, r: string, v: string)
    requires Blank(w) && Blank(v) && StartsSolid(r) && EndsSolid(r)
    ensures Trim(w + r + v) == r
  {
    hide IsWhitespace;
    if r == "" {
      assert w + r + v == w + v + "";
      TrimStartUnique(w + v, "");
    } else {
      assert w + r + v == w + (r + v);
      TrimStartUnique(w, r + v);
      TrimEndUnique(r, v);
    }
  }

  lemma TrimSplit(s: string) returns (w: string, v: string)
    ensures s == w + Trim(s) + v && Blank(w) && Blank(v)
  {
    hide IsWhitespace;
    var t := TrimStart(s);
    var r := TrimEnd(t);
    w, v := s[..|s| - |t|], t[|r|..];
    assert t == r + v;
    assert w + (r + v) == w + r + v;
  }

  lemma BlankConcat(w: string, v: string)
    requires Blank(w) && Blank(v)
    ensures Blank(w + v)
  {
    hide IsWhitespace;
    forall i | 0 <= i < |w + v| ensures IsWhitespace((w + v)[i]) {
      assert (w + v)[i] == if i < |w| then w[i] else v[i - |w|];
    }
  }

  lemma Reassociate(w: string, a: string, r: string, b: string, v: string)
    ensures w + (a + r + b) + v == (w + a) + r + (b + v)
  {
  }

  lemma TrimIgnoresBlankEdges(w: string, s: string, v: string)
    requires Blank(w) && Blank(v)
    ensures Trim(w + s + v) == Trim(s)
  {
    hide IsWhitespace;
    var a, b := TrimSplit(s);
    BlankConcat(w, a);
    BlankConcat(b, v);
    Reassociate(w, a, Trim(s), b, v);
    TrimUnique(w + a, Trim(s), b + v);
  }

  // ---------- concatenation and joining ----------

  function Concat(ps: seq<string>): string {
    if ps == [] then "" else ps[0] + Concat(ps[1..])
  }

  lemma {:induction false} ConcatAppend(a: seq<string>, b: seq<string>)
    ensures Concat(a + b) == Concat(a) + Concat(b)
  {
    if a == [] {
      assert a + b == b;
    } else {
      ConcatAppend(a[1..], b);
      assert (a + b)[0] == a[0] && (a + b)[1..] == a[1..] + b;
      var x, y := Concat(a[1..]), Concat(b);
      assert a[0] + (x + y) == (a[0] + x) + y;
    }
  }

  function Join(ls: seq<string>, sep: string): string {
    if ls == [] then ""
    else if |ls| == 1 then ls[0]
    else ls[0] + sep + Join(ls[1..], sep)
  }

  predicate NewlineFree(s: string) { '\n' !in s }

  predicate NewlineFreeLines(ls: seq<string>) {
    forall i :: 0 <= i < |ls| ==> NewlineFree(ls[i])
  }

  function Terminated(ls: seq<string>): (r: seq<string>)
    ensures |r| == |ls|
  {
    seq(|ls|, i requires 0 <= i < |ls| => ls[i] + "\n")
  }

  /** Every line followed by a newline. */
  function Unlines(ls: seq<string>): string { Concat(Terminated(ls)) }

  lemma UnlinesText(ls: seq<string>)
    ensures Unlines(ls) == Concat(Terminated(ls))
  {
  }

  lemma UnlinesAppend(a: seq<string>, b: seq<string>)
    ensures Unlines(a + b) == Unlines(a) + Unlines(b)
  {
    assert Terminated(a + b) == Terminated(a) + Terminated(b);
    ConcatAppend(Terminated(a), Terminated(b));
  }

  lemma UnlinesCons(l: string, ls: seq<string>)
    ensures Unlines([l] + ls) == l + "\n" + Unlines(ls)
  {
    assert Terminated([l] + ls)[1..] == Terminated(ls);
  }

  lemma UnlinesOne(l: string)
    ensures Unlines([l]) == l + "\n"
  {
    assert [l] + [] == [l];
    UnlinesCons(l, []);
    assert Terminated([]) == [];
  }

  lemma {:induction false} JoinUnlines(ls: seq<string>)
    requires ls != []
    ensures Join(ls, "\n") + "\n" == Unlines(ls)
  {
    assert ls == [ls[0]] + ls[1..];
    UnlinesCons(ls[0], ls[1..]);
    if |ls| == 1 {
    } else {
      JoinUnlines(ls[1..]);
      assert Join(ls, "\n") + "\n" == ls[0] + "\n" + (Join(ls[1..], "\n") + "\n");
    }
  }

  // ---------- splitting into lines ----------

  /** Index just past the first newline, or the length when there is none. */
  function PieceEnd(s: string): (n: nat)
    requires s != ""
    ensures 0 < n <= |s|
    ensures NewlineFree(s[..n - 1])
    ensures s[n - 1] != '\n' ==> n == |s|
  {
    if s[0] == '\n' || |s| == 1 then 1 else
      var n := 1 + PieceEnd(s[1..]);
      assert s[..n - 1] == [s[0]] + s[1..][..n - 2];
      n
  }

  predicate EndsLine(s: string) { s != "" && s[|s| - 1] == '\n' }

  predicate FullLine(p: string) { EndsLine(p) && NewlineFree(p[..|p| - 1]) }

  predicate Torn(p: string) { p != "" && NewlineFree(p) }

  /** What `split_inclusive('\n')` yields: full lines, then at most one unterminated rest. */
  predicate WellSplit(ps: seq<string>) {
    && (forall i :: 0 <= i < |ps| - 1 ==> FullLine(ps[i]))
    && (ps != [] ==> FullLine(ps[|ps| - 1]) || Torn(ps[|ps| - 1]))
  }

  function SplitInclusive(s: string): (r: seq<string>)
    ensures Concat(r) == s
    ensures WellSplit(r)
  {
    if s == "" then [] else
      var n := PieceEnd(s);
      var rest := SplitInclusive(s[n..]);
      assert s == s[..n] + s[n..];
      assert s[..n][..n - 1] == s[..n - 1];
      assert FullLine(s[..n]) || (Torn(s[..n]) && rest == []);
      [s[..n]] + rest
  }

  lemma PieceEndUnique(p: string, s: string)
    requires FullLine(p) || (Torn(p) && s == "")
    ensures PieceEnd(p + s) == |p|
  {
    var n := PieceEnd(p + s);
    assert forall k :: 0 <= k < n - 1 ==> (p + s)[k] in (p + s)[..n - 1];
    assert forall k :: 0 <= k < |p| - 1 ==> p[k] in p[..|p| - 1];
    assert forall k :: 0 <= k < |p| ==> (p + s)[k] == p[k];
  }

  lemma {:induction false} SplitUnique(ps: seq<string>)
    requires WellSplit(ps)
    ensures SplitInclusive(Concat(ps)) == ps
  {
    hide FullLine, Torn, WellSplit;
    if ps != [] {
      var p, rest := ps[0], ps[1..];
      WellSplitTail(ps);
      SplitUnique(rest);
      assert rest == [] ==> Concat(rest) == "";
      PieceEndUnique(p, Concat(rest));
      assert Concat(ps)[..|p|] == p && Concat(ps)[|p|..] == Concat(rest);
    }
  }

  lemma WellSplitTail(ps: seq<string>)
    requires WellSplit(ps) && ps != []
    ensures WellSplit(ps[1..]) && ps[0] != ""
    ensures FullLine(ps[0]) || (Torn(ps[0]) && ps[1..] == [])
  {
    var rest := ps[1..];
    assert rest != [] ==> rest[|rest| - 1] == ps[|ps| - 1];
  }

  lemma WellSplitAppend(p: seq<string>, q: seq<string>)
    requires WellSplit(p) && WellSplit(q)
    requires p != [] ==> FullLine(p[|p| - 1])
    ensures WellSplit(p + q)
  {
    hide FullLine;
    forall i | 0 <= i < |p + q| - 1 ensures FullLine((p + q)[i]) {
      assert (p + q)[i] == if i < |p| then p[i] else q[i - |p|];
    }
    if q != [] {
      assert (p + q)[|p + q| - 1] == q[|q| - 1];
    } else {
      assert p + q == p;
    }
  }

  /** A text cut right after a newline splits piecewise. */
  lemma SplitAppend(a: string, b: string)
    requires a == "" || EndsLine(a)
    ensures SplitInclusive(a + b) == SplitInclusive(a) + SplitInclusive(b)
  {
    hide FullLine;
    var p, q := SplitInclusive(a), SplitInclusive(b);
    if a != "" { LastPiece(a); }
    ConcatAppend(p, q);
    WellSplitAppend(p, q);
    SplitUnique(p + q);
  }

  /** The last piece ends the text. */
  lemma LastPiece(s: string)
    requires s != ""
    ensures var ps := SplitInclusive(s);
            ps != [] && (EndsLine(s) <==> FullLine(ps[|ps| - 1])) && (!EndsLine(s) ==> Torn(ps[|ps| - 1]))
  {
    hide SplitInclusive;
    var ps := SplitInclusive(s);
    assert ps == [] ==> Concat(ps) == "";
    LastKind(ps);
  }

  lemma LastKind(ps: seq<string>)
    requires ps != [] && WellSplit(ps)
    ensures var z := ps[|ps| - 1];
            && (EndsLine(Concat(ps)) <==> FullLine(z)) && (!EndsLine(Concat(ps)) ==> Torn(z))
  {
    hide Concat, EndsLine, NewlineFree;
    var a, z := ps[..|ps| - 1], ps[|ps| - 1];
    assert ps == a + [z];
    ConcatAppend(a, [z]);
    ConcatSingle(z);
    PieceKind(z);
    EndOfAppended(Concat(a), z);
  }

  lemma ConcatSingle(z: string)
    ensures Concat([z]) == z
  {
    assert [z][1..] == [];
    assert Concat([]) == "" && z + "" == z;
  }

  lemma PieceKind(z: string)
    requires FullLine(z) || Torn(z)
    ensures z != "" && (EndsLine(z) <==> FullLine(z)) && (!EndsLine(z) <==> Torn(z))
  {
    assert z[|z| - 1] in z;
  }

  lemma EndOfAppended(x: string, z: string)
    requires z != ""
    ensures EndsLine(x + z) <==> EndsLine(z)
  {
    assert (x + z)[|x + z| - 1] == z[|z| - 1];
  }

  lemma SplitUnlines(ls: seq<string>)
    requires NewlineFreeLines(ls)
    ensures SplitInclusive(Unlines(ls)) == Terminated(ls)
  {
    forall i | 0 <= i < |ls| ensures FullLine(Terminated(ls)[i]) {
      assert Terminated(ls)[i][..|ls[i]|] == ls[i];
    }
    SplitUnique(Terminated(ls));
  }

  lemma UnlinesEndsLine(ls: seq<string>)
    ensures ls == [] ==> Unlines(ls) == ""
    ensures ls != [] ==> EndsLine(Unlines(ls))
  {
    if ls != [] {
      JoinUnlines(ls);
    }
  }

  // ---------- line endings ----------

  function StripCr(l: string): string {
    if l != "" && l[|l| - 1] == '\r' then l[..|l| - 1] else l
  }

  function StripCrs(ls: seq<string>): (r: seq<string>)
    ensures |r| == |ls|
  {
    seq(|ls|, i requires 0 <= i < |ls| => StripCr(ls[i]))
  }

  lemma StripCrsConcat(a: seq<string>, b: seq<string>)
    ensures StripCrs(a + b) == StripCrs(a) + StripCrs(b)
  {
    hide StripCr;
  }

  lemma StripCrsOne(l: string)
    ensures StripCrs([l]) == [StripCr(l)]
  {
  }

  /** One line of `lines()`: a terminated piece loses its newline and one carriage return before it. */
  function StripEol(p: string): string {
    if EndsLine(p) then StripCr(p[..|p| - 1]) else p
  }

  function Lines(s: string): (r: seq<string>)
    ensures |r| == |SplitInclusive(s)|
  {
    var ps := SplitInclusive(s);
    seq(|ps|, i requires 0 <= i < |ps| => StripEol(ps[i]))
  }

  predicate IsEol(c: char) { c == '\n' || c == '\r' }

  /** `trim_end_matches(['\n', '\r'])` */
  function TrimEol(s: string): (r: string)
    ensures r <= s
    ensures r != "" ==> !IsEol(r[|r| - 1])
    ensures forall i :: |r| <= i < |s| ==> IsEol(s[i])
  {
    if s != "" && IsEol(s[|s| - 1]) then TrimEol(s[..|s| - 1]) else s
  }

  lemma LinesNewlineFree(s: string)
    ensures NewlineFreeLines(Lines(s))
  {
    var ps := SplitInclusive(s);
    forall i | 0 <= i < |ps| ensures NewlineFree(Lines(s)[i]) {
      var p := ps[i];
      if EndsLine(p) {
        assert FullLine(p);
      }
    }
  }

  /** The lines of a terminated text, each losing at most one carriage return. */
  lemma LinesOfUnlines(ls: seq<string>)
    requires NewlineFreeLines(ls)
    ensures Lines(Unlines(ls)) == StripCrs(ls)
  {
    SplitUnlines(ls);
    forall i | 0 <= i < |ls| ensures StripEol(Terminated(ls)[i]) == StripCr(ls[i]) {
      StripEolOfLine(ls[i]);
    }
  }

  lemma {:induction false} JoinInit(ls: seq<string>)
    requires |ls| > 1
    ensures Join(ls, "\n") == Unlines(ls[..|ls| - 1]) + ls[|ls| - 1]
  {
    assert ls[..|ls| - 1] == [ls[0]] + ls[1..][..|ls| - 2];
    UnlinesCons(ls[0], ls[1..][..|ls| - 2]);
    if |ls| == 2 {
      assert ls[1..][..0] == [];
      assert Join(ls[1..], "\n") == ls[1];
    } else {
      JoinInit(ls[1..]);
    }
  }

  lemma StripEolOfLine(l: string)
    ensures StripEol(l + "\n") == StripCr(l)
  {
    assert (l + "\n")[..|l|] == l;
  }

  /** Joining newline-free lines and reading them back; the last is not empty and ends in no carriage return. */
  lemma LinesOfJoin(ls: seq<string>)
    requires ls != [] && NewlineFreeLines(ls) && ls[|ls| - 1] != ""
    requires ls[|ls| - 1][|ls[|ls| - 1]| - 1] != '\r'
    ensures Lines(Join(ls, "\n")) == StripCrs(ls)
  {
    hide StripEol, StripCr, Join, SplitInclusive, NewlineFree;
    var n := |ls| - 1;
    var z := ls[n];
    TornLastLine(z);
    forall i | 0 <= i < n ensures StripEol(ls[i] + "\n") == StripCr(ls[i]) {
      StripEolOfLine(ls[i]);
    }
    SplitOfJoin(ls);
    var ps := Terminated(ls[..n]) + [z];
    assert forall i :: 0 <= i < n ==> ps[i] == ls[i] + "\n";
    assert ps[n] == z;
  }

  lemma TornLastLine(z: string)
    requires NewlineFree(z) && z != "" && z[|z| - 1] != '\r'
    ensures StripEol(z) == StripCr(z)
  {
    assert z[|z| - 1] in z;
  }

  lemma SplitOfJoin(ls: seq<string>)
    requires ls != [] && NewlineFreeLines(ls) && ls[|ls| - 1] != ""
    ensures SplitInclusive(Join(ls, "\n")) == Terminated(ls[..|ls| - 1]) + [ls[|ls| - 1]]
  {
    var n := |ls| - 1;
    if n > 0 {
      JoinInit(ls);
    } else {
      assert ls[..n] == [];
    }
    assert Join(ls, "\n") == Unlines(ls[..n]) + ls[n];
    SplitTornTail(ls[..n], ls[n]);
  }

  lemma SplitTornTail(ls: seq<string>, z: string)
    requires NewlineFreeLines(ls) && Torn(z)
    ensures SplitInclusive(Unlines(ls) + z) == Terminated(ls) + [z]
  {
    UnlinesEndsLine(ls);
    SplitAppend(Unlines(ls), z);
    SplitUnlines(ls);
    assert Concat([z]) == z;
    SplitUnique([z]);
  }

  /** Joined lines determine the lines. */
  lemma {:induction false} JoinInjective(a: seq<string>, b: seq<string>)
    requires |a| == |b| && NewlineFreeLines(a) && NewlineFreeLines(b)
    requires Join(a, "\n") == Join(b, "\n")
    ensures a == b
  {
    if a != [] {
      JoinUnlines(a);
      JoinUnlines(b);
      SplitUnlines(a);
      SplitUnlines(b);
      forall i | 0 <= i < |a| ensures a[i] == b[i] {
        assert Terminated(a)[i] == Terminated(b)[i];
        assert a[i] == Terminated(a)[i][..|a[i]|] && b[i] == Terminated(b)[i][..|b[i]|];
      }
    }
  }

  // ---------- collapsing whitespace ----------

  function WordLen(s: string): (n: nat)
    ensures n <= |s|
    ensures forall i :: 0 <= i < n ==> !IsWhitespace(s[i])
    ensures n < |s| ==> IsWhitespace(s[n])
    ensures s != "" && StartsSolid(s) ==> n > 0
  {
    if s == "" || IsWhitespace(s[0]) then 0 else 1 + WordLen(s[1..])
  }

  /** `split_whitespace` */
  function Words(s: string): (ws: seq<string>)
    decreases |s|
  {
    var t := TrimStart(s);
    if t == "" then [] else
      [t[..WordLen(t)]] + Words(t[WordLen(t)..])
  }

  predicate AllWords(ws: seq<string>) {
    forall i :: 0 <= i < |ws| ==> IsWord(ws[i])
  }

  lemma {:induction false} WordsAreWords(s: string)
    ensures AllWords(Words(s))
    decreases |s|
  {
    hide IsWhitespace, BlankLen, WordLen, TrimStart, IsWord;
    var t := TrimStart(s);
    if t != "" {
      var w, r := t[..WordLen(t)], t[WordLen(t)..];
      FirstWord(t);
      WordsAreWords(r);
      assert Words(s) == [w] + Words(r);
    }
  }

  lemma FirstWord(t: string)
    requires t != "" && StartsSolid(t)
    ensures IsWord(t[..WordLen(t)])
  {
    hide IsWhitespace;
  }

  function Collapse(s: string): string { Join(Words(s), " ") }

  /** Single inner spaces only. */
  predicate Tidy(s: string) {
    forall i :: 0 <= i < |s| && IsWhitespace(s[i]) ==> s[i] == ' ' && 0 < i < |s| - 1 && !IsWhitespace(s[i + 1])
  }

  lemma TidyCons(w: string, u: string)
    requires w != "" && u != "" && Tidy(w) && Tidy(u)
    ensures Tidy(w + " " + u)
  {
    hide IsWhitespace;
    var c := w + " " + u;
    assert c[|w|] == ' ' && c[|w| + 1] == u[0] && |c| == |w| + 1 + |u|;
    assert forall k :: 0 <= k < |w| ==> c[k] == w[k];
    assert forall k :: |w| < k < |c| ==> c[k] == u[k - |w| - 1];
  }

  predicate IsWord(w: string) {
    w != "" && forall i :: 0 <= i < |w| ==> !IsWhitespace(w[i])
  }

  lemma {:induction false} JoinedWordsTidy(ws: seq<string>)
    requires AllWords(ws)
    ensures Tidy(Join(ws, " "))
    ensures ws != [] ==> Join(ws, " ") != ""
  {
    hide IsWhitespace;
    if |ws| > 1 {
      JoinedWordsTidy(ws[1..]);
      TidyCons(ws[0], Join(ws[1..], " "));
    }
  }


  lemma CollapseTidy(s: string)
    ensures Tidy(Collapse(s))
  {
    WordsAreWords(s);
    JoinedWordsTidy(Words(s));
  }

  lemma WordsOfTidyCons(w: string, r: string)
    requires IsWord(w) && r != "" && StartsSolid(r)
    ensures Words(w + " " + r) == [w] + Words(r)
  {
    hide IsWhitespace;
    var s, q := w + " " + r, " " + r;
    assert s == w + q && s[0] == w[0];
    SolidTrimStart(s);
    assert WordLen(s) == |w| by {
      SpaceIsWhitespace();
      WordLenUnique(w, q);
    }
    assert s[..|w|] == w && s[|w|..] == q;
    assert Words(q) == Words(r) by {
      SpaceIsWhitespace();
      TrimStartUnique(" ", r);
      SolidTrimStart(r);
    }
  }

  lemma {:induction false} WordLenUnique(w: string, r: string)
    requires IsWord(w) || w == ""
    requires r != "" && IsWhitespace(r[0])
    ensures WordLen(w + r) == |w|
  {
    hide IsWhitespace;
    if w == "" {
      assert w + r == r;
    } else {
      WordLenUnique(w[1..], r);
      assert (w + r)[1..] == w[1..] + r;
    }
  }

  lemma WordsOfWord(w: string)
    requires IsWord(w)
    ensures Words(w) == [w]
  {
    hide IsWhitespace;
    SolidTrimStart(w);
    assert WordLen(w) == |w|;
    assert w[..|w|] == w && w[|w|..] == "";
    assert TrimStart("") == "";
  }

  lemma JoinCons(w: string, ws: seq<string>, sep: string)
    requires ws != []
    ensures Join([w] + ws, sep) == w + sep + Join(ws, sep)
  {
    assert ([w] + ws)[1..] == ws;
  }

  lemma {:induction false} TidyFixed(s: string)
    requires Tidy(s)
    ensures Collapse(s) == s
    decreases |s|
  {
    hide IsWhitespace;
    if s != "" {
      var n := WordLen(s);
      if n == |s| {
        WordsOfWord(s);
      } else {
        var r := TidyStep(s, n);
        TidyFixed(r);
        WordsOfTidyCons(s[..n], r);
        assert Words(r) != [];
        JoinCons(s[..n], Words(r), " ");
      }
    }
  }

  /** Joined by spaces, words come apart again. */
  lemma {:induction false} WordsOfJoin(ws: seq<string>)
    requires AllWords(ws)
    ensures Words(Join(ws, " ")) == ws
  {
    hide Words, IsWord, Join;
    if ws == [] {
      NoWords();
    } else if |ws| == 1 {
      WordsOfWord(ws[0]);
      JoinOne(ws[0], " ");
      assert ws == [ws[0]];
    } else {
      WordsOfJoin(ws[1..]);
      WordJoined(ws[0], ws[1..]);
      assert ws == [ws[0]] + ws[1..];
    }
  }

  lemma NoWords()
    ensures Words(Join([], " ")) == []
  {
  }

  lemma JoinOne(w: string, sep: string)
    ensures Join([w], sep) == w
  {
  }

  lemma WordJoined(w: string, rest: seq<string>)
    requires IsWord(w) && AllWords(rest) && rest != []
    ensures Words(Join([w] + rest, " ")) == [w] + Words(Join(rest, " "))
  {
    hide Words, IsWord, Join;
    JoinStartsSolid(rest);
    WordsOfTidyCons(w, Join(rest, " "));
    JoinCons(w, rest, " ");
  }

  lemma JoinStartsSolid(ws: seq<string>)
    requires AllWords(ws) && ws != []
    ensures StartsSolid(Join(ws, " ")) && Join(ws, " ") != ""
  {
    hide IsWhitespace;
    assert Join(ws, " ")[0] == ws[0][0];
  }

  lemma TidyStep(s: string, n: nat) returns (r: string)
    requires Tidy(s) && n == WordLen(s) < |s|
    ensures s == s[..n] + " " + r && IsWord(s[..n])
    ensures Tidy(r) && r != "" && StartsSolid(r) && |r| < |s|
  {
    hide IsWhitespace;
    r := s[n + 1..];
    assert s[n] == ' ' && s[n + 1] == r[0];
    TidySuffix(s, n + 1);
  }

  lemma SpaceIsWhitespace()
    ensures IsWhitespace(' ') && IsWhitespace('\n') && IsWhitespace('\r')
  {
  }

  lemma SolidTrimStart(s: string)
    requires StartsSolid(s)
    ensures TrimStart(s) == s
  {
    hide IsWhitespace;
    TrimStartUnique("", s);
    assert "" + s == s;
  }

  lemma TidySuffix(s: string, k: nat)
    requires Tidy(s) && k < |s| && !IsWhitespace(s[k])
    ensures Tidy(s[k..])
  {
    hide IsWhitespace;
    var r := s[k..];
    assert forall j :: 0 <= j < |r| ==> r[j] == s[k + j];
  }

  lemma TidySingleLine(s: string)
    requires Tidy(s)
    ensures NewlineFree(s) && '\r' !in s
    ensures StartsSolid(s) && EndsSolid(s)
  {
  }

  // ---------- searching ----------

  predicate StartsWith(s: string, p: string) { p <= s }

  /** Index of the first occurrence of `pat`, or `|s|` when there is none. */
  function Find(s: string, pat: string): (i: nat)
    requires pat != ""
    ensures i <= |s|
    ensures i < |s| ==> pat <= s[i..]
    ensures forall k :: 0 <= k < i ==> !(pat <= s[k..])
  {
    if s == "" || pat <= s then 0 else
      var i := 1 + Find(s[1..], pat);
      assert forall k :: 0 < k <= |s| ==> s[k..] == s[1..][k - 1..];
      i
  }

  lemma FindUnique(s: string, pat: string, i: nat)
    requires pat != "" && i < |s| && pat <= s[i..]
    requires forall k :: 0 <= k < i ==> !(pat <= s[k..])
    ensures Find(s, pat) == i
  {
  }
}
