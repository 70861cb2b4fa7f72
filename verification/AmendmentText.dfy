/** Which texts survive an append and a read unchanged. */
module AmendmentText {
  import opened Text
  import opened Brief

  /** The text read back from an appended section. */
  function Recovered(text: string): string {
    Join(UnescapeLines(Lines(Trim(EscapeBody(TrimEnd(text))))), "\n")
  }

  /** Line endings normalised to a bare newline. */
  function Unix(s: string): string { Join(Lines(s), "\n") }

  /** The text up to line endings and outer whitespace. */
  function Canon(text: string): string { Unix(Trim(Unix(TrimEnd(text)))) }

  /** Index of the first line that is not blank. */
  function FirstSolid(ls: seq<string>): (i: nat)
    ensures i <= |ls|
    ensures forall k :: 0 <= k < i ==> Blank(ls[k])
    ensures i < |ls| ==> !Blank(ls[i])
  {
    if ls == [] || !Blank(ls[0]) then 0 else 1 + FirstSolid(ls[1..])
  }

  predicate FirstLineKept(ls: seq<string>) {
    var f := FirstSolid(ls);
    f < |ls| && IsMarkerLine(ls[f]) ==> StartsSolid(ls[f])
  }

  predicate NoneLooksEscaped(ls: seq<string>) {
    forall i :: 0 <= i < |ls| ==> !LooksEscaped(ls[i])
  }

  /** No line already looks escaped, and the first line is not an indented marker. */
  predicate Faithful(text: string) {
    && NoneLooksEscaped(Lines(Trim(Unix(TrimEnd(text)))))
    && FirstLineKept(Lines(TrimEnd(text)))
  }

  // ---------- one line ----------

  lemma StripCrSolidEnd(l: string)
    ensures IsMarkerLine(StripCr(l)) <==> IsMarkerLine(l)
    ensures StartsWith(StripCr(l), AMENDMENT_PREFIX) <==> StartsWith(l, AMENDMENT_PREFIX)
  {
    hide Trim, IsWhitespace;
    if StripCr(l) != l {
      SpaceIsWhitespace();
      TrimIgnoresBlankEdges("", StripCr(l), "\r");
      assert l == "" + StripCr(l) + "\r";
      if StartsWith(l, AMENDMENT_PREFIX) {
        assert |l| == |AMENDMENT_PREFIX| ==> l == AMENDMENT_PREFIX;
      }
    }
  }

  lemma StructuralNotEscaped(l: string)
    requires IsStructural(l)
    ensures l != "" && l[0] != '\\'
  {
    hide IsWhitespace;
    if IsMarkerLine(l) {
      var w, v := TrimSplit(l);
      assert l == w + AMENDMENTS_MARKER + v;
      assert l[0] == if w == "" then '<' else w[0];
      assert !IsWhitespace('\\') by { BackslashSolid(); }
    }
  }

  lemma BackslashSolid()
    ensures !IsWhitespace('\\')
  {
  }

  lemma EscapedLineBack(l: string)
    requires IsStructural(l)
    ensures UnescapeLine(StripCr("\\" + l)) == StripCr(l)
    ensures !LooksEscaped(StripCr(l))
  {
    hide Trim, StartsWith;
    StructuralNotEscaped(l);
    StripCrSolidEnd(l);
    var e, t := "\\" + l, StripCr(l);
    assert e[|e| - 1] == l[|l| - 1];
    assert StripCr(e) == "\\" + t;
    assert ("\\" + t)[1..] == t;
    assert t != "" ==> t[0] == l[0];
  }

  lemma LineBack(l: string)
    ensures UnescapeLine(StripCr(EscapeLine(l))) == StripCr(l) <==> !LooksEscaped(StripCr(l))
  {
    hide IsStructural, StripCr;
    if IsStructural(l) { EscapedLineBack(l); }
  }

  lemma BlankNotStructural(l: string)
    requires Blank(l)
    ensures !IsStructural(l)
  {
    hide IsWhitespace;
    TrimUnique(l, "", "");
    assert l + "" + "" == l;
    assert !IsWhitespace('#') by { HashSolid(); }
  }

  lemma HashSolid()
    ensures !IsWhitespace('#')
  {
  }

  /** The first non-blank line loses its indentation, unless it is an escaped marker line. */
  lemma FirstLineBack(l: string)
    requires !Blank(l)
    ensures UnescapeLine(StripCr(TrimStart(EscapeLine(l)))) == StripCr(TrimStart(l))
       <==> !LooksEscaped(StripCr(TrimStart(l))) && (IsMarkerLine(l) ==> StartsSolid(l))
  {
    hide IsMarkerLine, IsWhitespace, BlankLen;
    var k := TrimStart(l);
    if IsStructural(l) {
      BackslashSolid();
      SolidTrimStart("\\" + l);
      EscapedLineBack(l);
      if StartsSolid(l) {
        SolidTrimStart(l);
      } else {
        assert |k| < |l|;
        assert !StartsWith(l, AMENDMENT_PREFIX) by { HashSolid(); }
        IndentedMarker(l);
        assert |StripCr(k)| < |StripCr(l)|;
      }
    }
  }

  lemma IndentedMarker(l: string)
    requires !Blank(l) && !StartsSolid(l)
    ensures |TrimStart(l)| < |l|
    ensures |StripCr(TrimStart(l))| < |StripCr(l)|
  {
    hide IsWhitespace, BlankLen;
    var k := TrimStart(l);
    assert k == l ==> StartsSolid(l);
    TrimStartNonBlank(l);
    assert k[|k| - 1] == l[|l| - 1];
  }

  // ---------- trimming joined lines ----------

  predicate EndsNonBlank(ls: seq<string>) {
    ls != [] && ls[|ls| - 1] != "" && EndsSolid(ls[|ls| - 1])
  }

  function Dedent(ls: seq<string>): seq<string>
    requires FirstSolid(ls) < |ls|
  {
    var f := FirstSolid(ls);
    [TrimStart(ls[f])] + ls[f + 1..]
  }

  lemma EndsNonBlankHasSolid(ls: seq<string>)
    requires EndsNonBlank(ls)
    ensures FirstSolid(ls) < |ls|
  {
    var z := ls[|ls| - 1];
    assert !Blank(z) by { assert !IsWhitespace(z[|z| - 1]); }
  }

  lemma DedentEnds(ls: seq<string>)
    requires EndsNonBlank(ls) && FirstSolid(ls) < |ls|
    ensures EndsNonBlank(Dedent(ls))
  {
    hide IsWhitespace, TrimStart, FirstSolid, Blank;
    var f := FirstSolid(ls);
    TrimStartNonBlank(ls[f]);
    LastOfReplaced(ls, f, TrimStart(ls[f]));
  }

  lemma LastOfReplaced(ls: seq<string>, f: nat, t: string)
    requires f < |ls|
    ensures var d := [t] + ls[f + 1..];
            d[|d| - 1] == if f == |ls| - 1 then t else ls[|ls| - 1]
  {
  }

  lemma TrimStartNonBlank(l: string)
    requires !Blank(l)
    ensures TrimStart(l) != "" && !IsWhitespace(TrimStart(l)[0])
    ensures TrimStart(l)[|TrimStart(l)| - 1] == l[|l| - 1]
  {
    hide IsWhitespace, BlankLen;
    var t := TrimStart(l);
    assert l[..|l|] == l;
  }

  lemma {:induction false} JoinEndsSolid(ls: seq<string>)
    requires EndsNonBlank(ls)
    ensures Join(ls, "\n") != "" && EndsSolid(Join(ls, "\n"))
  {
    hide IsWhitespace;
    if |ls| > 1 {
      JoinEndsSolid(ls[1..]);
    }
  }

  lemma {:induction false} TrimJoin(ls: seq<string>)
    requires EndsNonBlank(ls) && FirstSolid(ls) < |ls|
    ensures Trim(Join(ls, "\n")) == Join(Dedent(ls), "\n")
  {
    hide IsWhitespace, BlankLen, Trim;
    if Blank(ls[0]) {
      var rest := ls[1..];
      assert !Blank(ls[|ls| - 1]);
      TrimJoin(rest);
      BlankLine(ls[0]);
      TrimIgnoresBlankEdges(ls[0] + "\n", Join(rest, "\n"), "");
      assert Join(ls, "\n") == ls[0] + "\n" + Join(rest, "\n") + "";
      assert Dedent(ls) == Dedent(rest) by {
        assert FirstSolid(ls) == 1 + FirstSolid(rest);
        assert ls[FirstSolid(ls) + 1..] == rest[FirstSolid(rest) + 1..];
      }
    } else {
      FirstLineTrim(ls);
    }
  }

  lemma BlankLine(l: string)
    requires Blank(l)
    ensures Blank(l + "\n")
  {
    hide IsWhitespace;
    SpaceIsWhitespace();
    BlankConcat(l, "\n");
  }

  lemma JoinHead(w: string, t: string, rest: seq<string>)
    ensures Join([w + t] + rest, "\n") == w + Join([t] + rest, "\n")
  {
    assert ([w + t] + rest)[1..] == rest && ([t] + rest)[1..] == rest;
  }

  lemma FirstLineTrim(ls: seq<string>)
    requires EndsNonBlank(ls) && !Blank(ls[0])
    ensures Trim(Join(ls, "\n")) == Join([TrimStart(ls[0])] + ls[1..], "\n")
  {
    hide IsWhitespace, TrimStart, Trim, Join;
    var l := ls[0];
    var t := TrimStart(l);
    var w := l[..|l| - |t|];
    var d := [t] + ls[1..];
    var r := Join(d, "\n");
    assert l == w + t && ls == [w + t] + ls[1..];
    JoinHead(w, t, ls[1..]);
    TrimStartNonBlank(l);
    DedentEnds(ls);
    JoinEndsSolid(d);
    JoinHead(t, "", ls[1..]);
    assert t + "" == t;
    assert r == t + Join([""] + ls[1..], "\n");
    assert w + r + "" == w + r;
    TrimUnique(w, r, "");
  }

  // ---------- the round trip ----------

  lemma LastLineSolid(t: string)
    requires t != "" && EndsSolid(t)
    ensures EndsNonBlank(Lines(t))
  {
    hide IsWhitespace, SplitInclusive, FullLine, WellSplit;
    SpaceIsWhitespace();
    LastPiece(t);
    var ps := SplitInclusive(t);
    var z := ps[|ps| - 1];
    TornUnchanged(z);
    LastOfConcat(ps);
  }

  lemma LastOfConcat(ps: seq<string>)
    requires ps != [] && ps[|ps| - 1] != ""
    ensures var z := ps[|ps| - 1]; Concat(ps) != "" && Concat(ps)[|Concat(ps)| - 1] == z[|z| - 1]
  {
    var n := |ps| - 1;
    assert ps == ps[..n] + [ps[n]];
    ConcatAppend(ps[..n], [ps[n]]);
    assert Concat([ps[n]]) == ps[n];
  }

  lemma EscapeKeepsShape(ls: seq<string>)
    requires EndsNonBlank(ls)
    ensures EndsNonBlank(EscapeLines(ls))
    ensures FirstSolid(EscapeLines(ls)) == FirstSolid(ls) < |ls|
  {
    hide IsWhitespace, IsStructural, Blank;
    EndsNonBlankHasSolid(ls);
    var f := FirstSolid(ls);
    forall k | 0 <= k < f ensures Blank(EscapeLines(ls)[k]) {
      BlankNotStructural(ls[k]);
    }
    EscapeNotBlank(ls[f]);
    FirstSolidUnique(EscapeLines(ls), f);
    EscapeKeepsEnd(ls[|ls| - 1]);
  }

  lemma EscapeKeepsEnd(l: string)
    requires l != "" && EndsSolid(l)
    ensures EscapeLine(l) != "" && EndsSolid(EscapeLine(l))
  {
    hide IsWhitespace, IsStructural;
  }

  lemma EscapeNotBlank(l: string)
    requires !Blank(l)
    ensures !Blank(EscapeLine(l))
  {
    hide IsWhitespace, IsStructural;
    BackslashSolid();
    assert ("\\" + l)[0] == '\\';
  }

  lemma {:induction false} FirstSolidUnique(ls: seq<string>, f: nat)
    requires f < |ls| && !Blank(ls[f])
    requires forall k :: 0 <= k < f ==> Blank(ls[k])
    ensures FirstSolid(ls) == f
  {
    hide Blank;
  }

  /** The lines of trimmed, joined lines. */
  lemma LinesOfTrimmedJoin(ls: seq<string>)
    requires EndsNonBlank(ls) && NewlineFreeLines(ls) && FirstSolid(ls) < |ls|
    ensures Lines(Trim(Join(ls, "\n"))) == StripCrs(Dedent(ls))
  {
    hide IsWhitespace, Trim, Join, Lines, Dedent, StripCrs, FirstSolid, NewlineFreeLines, EndsNonBlank;
    var d := Dedent(ls);
    TrimJoin(ls);
    DedentEnds(ls);
    DedentNewlineFree(ls);
    EndsWithoutCr(d);
    LinesOfJoin(d);
  }

  lemma EndsWithoutCr(ls: seq<string>)
    requires EndsNonBlank(ls)
    ensures ls != [] && var z := ls[|ls| - 1]; z != "" && z[|z| - 1] != '\r'
  {
    hide IsWhitespace;
    SpaceIsWhitespace();
  }

  lemma DedentNewlineFree(ls: seq<string>)
    requires NewlineFreeLines(ls) && FirstSolid(ls) < |ls|
    ensures NewlineFreeLines(Dedent(ls))
  {
    hide TrimStart, NewlineFree;
    var f := FirstSolid(ls);
    var t := TrimStart(ls[f]);
    SuffixNewlineFree(ls[f], |ls[f]| - |t|);
    forall i | 0 <= i < |Dedent(ls)| ensures NewlineFree(Dedent(ls)[i]) {
      if i > 0 { assert Dedent(ls)[i] == ls[f + i]; }
    }
  }

  lemma SuffixNewlineFree(s: string, k: nat)
    requires NewlineFree(s) && k <= |s|
    ensures NewlineFree(s[k..])
  {
  }

  lemma EscapeLinesNewlineFree(ls: seq<string>)
    requires NewlineFreeLines(ls)
    ensures NewlineFreeLines(EscapeLines(ls))
  {
    hide IsStructural;
  }

  /** Line `i` of the text and of what is read back. */
  lemma LineByLine(ls: seq<string>, i: nat)
    requires EndsNonBlank(ls) && EndsNonBlank(EscapeLines(ls))
    requires FirstSolid(EscapeLines(ls)) == FirstSolid(ls) < |ls|
    requires i < |Dedent(ls)|
    ensures |Dedent(EscapeLines(ls))| == |Dedent(ls)|
    ensures UnescapeLine(StripCr(Dedent(EscapeLines(ls))[i])) == StripCr(Dedent(ls)[i])
       <==> !LooksEscaped(StripCr(Dedent(ls)[i])) && (i == 0 ==> FirstLineKept(ls))
  {
    hide IsWhitespace, IsStructural, StripCr, LooksEscaped, BlankLen, Trim;
    var f := FirstSolid(ls);
    if i == 0 {
      FirstLineBack(ls[f]);
    } else {
      LineBack(ls[f + i]);
      assert Dedent(ls)[i] == ls[f + i];
      assert Dedent(EscapeLines(ls))[i] == EscapeLines(ls)[f + i];
    }
  }

  lemma EmptyReadsBack(text: string)
    requires TrimEnd(text) == ""
    ensures Recovered(text) == Canon(text) && Faithful(text)
  {
    hide FirstLineKept, Trim;
    EmptyText();
  }

  /** The lines `ls` of a text, those of its canonical form `k`, and those read back `m`. */
  predicate BothSides(ls: seq<string>, k: seq<string>, m: seq<string>) {
    && EndsNonBlank(ls) && EndsNonBlank(EscapeLines(ls))
    && FirstSolid(EscapeLines(ls)) == FirstSolid(ls) < |ls|
    && k == StripCrs(Dedent(ls)) && m == UnescapeLines(StripCrs(Dedent(EscapeLines(ls))))
    && NewlineFreeLines(k) && NewlineFreeLines(m)
  }

  /** Both sides of the round trip, as lines. */
  lemma ReadLines(text: string) returns (ls: seq<string>, k: seq<string>, m: seq<string>)
    requires TrimEnd(text) != ""
    ensures BothSides(ls, k, m)
    ensures Canon(text) == Join(k, "\n") && Recovered(text) == Join(m, "\n")
    ensures Faithful(text) <==> NoneLooksEscaped(k) && FirstLineKept(ls)
  {
    hide Trim, Join, Lines, FirstLineKept, NoneLooksEscaped, EndsNonBlank, NewlineFreeLines, EscapeLines, UnescapeLines;
    hide StripCrs, Dedent, FirstSolid, TrimEnd;
    var t := TrimEnd(text);
    ls := Lines(t);
    LastLineSolid(t);
    LinesNewlineFree(t);
    EscapeKeepsShape(ls);
    EscapeLinesNewlineFree(ls);
    LinesOfTrimmedJoin(ls);
    LinesOfTrimmedJoin(EscapeLines(ls));
    k := Lines(Trim(Join(ls, "\n")));
    m := UnescapeLines(Lines(Trim(Join(EscapeLines(ls), "\n"))));
    LinesNewlineFree(Trim(Join(ls, "\n")));
    RecoveredNewlineFree(Trim(Join(EscapeLines(ls), "\n")));
    assert Unix(t) == Join(ls, "\n") && EscapeBody(t) == Join(EscapeLines(ls), "\n");
  }

  lemma SameLines(ls: seq<string>, k: seq<string>, m: seq<string>)
    requires BothSides(ls, k, m)
    ensures Join(k, "\n") == Join(m, "\n") <==> NoneLooksEscaped(k) && FirstLineKept(ls)
  {
    hide FirstLineKept, UnescapeLine, LooksEscaped, StripCr, Join, FirstSolid, EndsNonBlank, EscapeLines;
    hide NewlineFreeLines;
    LineByLine(ls, 0);
    assert |k| == |m| > 0;
    forall i | 0 <= i < |k|
      ensures m[i] == k[i] <==> !LooksEscaped(k[i]) && (i == 0 ==> FirstLineKept(ls))
    {
      LineByLine(ls, i);
    }
    if Join(m, "\n") == Join(k, "\n") {
      JoinInjective(m, k);
      assert m[0] == k[0] && NoneLooksEscaped(k);
    }
    if NoneLooksEscaped(k) && FirstLineKept(ls) {
      assert m == k;
    }
  }

  /** An amendment reads back as its text, up to line endings and outer whitespace, exactly when it is faithful. */
  lemma ReadsBackExactly(text: string)
    ensures Recovered(text) == Canon(text) <==> Faithful(text)
  {
    hide Trim, TrimEnd, Faithful, FirstLineKept;
    if TrimEnd(text) == "" {
      EmptyReadsBack(text);
    } else {
      var ls, k, m := ReadLines(text);
      SameLines(ls, k, m);
    }
  }

  lemma RecoveredNewlineFree(s: string)
    ensures NewlineFreeLines(UnescapeLines(Lines(s)))
  {
    hide LooksEscaped;
    LinesNewlineFree(s);
  }

  lemma EmptyText()
    ensures Lines("") == [] && Join([], "\n") == "" && Trim("") == ""
    ensures Unix("") == "" && FirstLineKept([])
  {
    assert SplitInclusive("") == [];
    TrimUnique("", "", "");
  }

  lemma {:induction false} JoinOfLines(ps: seq<string>, ls: seq<string>)
    requires |ls| == |ps| && ps != []
    requires forall i :: 0 <= i < |ps| - 1 ==> ps[i] == ls[i] + "\n"
    requires ps[|ps| - 1] == ls[|ps| - 1]
    ensures Join(ls, "\n") == Concat(ps)
  {
    if |ps| == 1 {
      assert ps[1..] == [];
    } else {
      JoinOfLines(ps[1..], ls[1..]);
    }
  }

  lemma PieceWithoutCr(p: string)
    requires FullLine(p) && '\r' !in p
    ensures p == StripEol(p) + "\n"
  {
  }

  lemma UnixPlain(s: string)
    requires '\r' !in s && !EndsLine(s)
    ensures Unix(s) == s
  {
    hide FullLine, StripEol, EndsLine, Join;
    var ps := SplitInclusive(s);
    if s == "" {
      EmptyText();
    } else {
      LastPiece(s);
      forall i | 0 <= i < |ps| - 1 ensures ps[i] == Lines(s)[i] + "\n" {
        PieceIn(ps, i);
        PieceWithoutCr(ps[i]);
      }
      TornUnchanged(ps[|ps| - 1]);
      JoinOfLines(ps, Lines(s));
    }
  }

  lemma TornUnchanged(p: string)
    requires Torn(p)
    ensures StripEol(p) == p
  {
  }

  lemma {:induction false} PieceIn(ps: seq<string>, i: nat)
    requires i < |ps|
    ensures forall c :: c in ps[i] ==> c in Concat(ps)
  {
    if i > 0 { PieceIn(ps[1..], i - 1); }
  }

  /** Without carriage returns the canonical text is just the trimmed text. */
  lemma CanonPlain(text: string)
    requires '\r' !in text
    ensures Canon(text) == Trim(text)
  {
    hide IsWhitespace;
    SpaceIsWhitespace();
    var t := TrimEnd(text);
    assert text == "" + t + text[|t|..];
    TrimIgnoresBlankEdges("", t, text[|t|..]);
    UnixPlain(t);
    var w, v := TrimSplit(t);
    assert forall c :: c in Trim(t) ==> c in t;
    UnixPlain(Trim(t));
  }
}
