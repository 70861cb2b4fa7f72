/** Which session files can be read, and renaming any of those (src/session.rs). */
module SessionFiles {
  import opened Text
  import opened Session

  // ---------- what a reader makes of the lines ----------

  /** Every line from `i` on that is not blank is an entry. */
  predicate AllDecode(k: Codec, lines: seq<string>, i: nat) {
    forall j :: i <= j < |lines| && Trim(lines[j]) != "" ==> k.decode(lines[j]).Some?
  }

  /** The entries of the lines that are not blank. */
  function Body(k: Codec, lines: seq<string>): seq<Entry> {
    if lines == [] then [] else
      var e := k.decode(lines[0]);
      (if Trim(lines[0]) != "" && e.Some? then [e.value] else []) + Body(k, lines[1..])
  }

  predicate HeaderLine(k: Codec, line: string) {
    Trim(line) != "" && k.decode(line).Some? && GoodHeader(k.decode(line).value)
  }

  lemma {:induction false} ReadOn(k: Codec, lines: seq<string>, i: nat, header: Option<Entry>, entries: seq<Entry>)
    requires 1 <= i <= |lines|
    ensures var r := ReadFrom(k, lines, i, header, entries);
            if !AllDecode(k, lines, i) then r.ParseError?
            else r == if header.Some? then Read(header.value, entries + Body(k, lines[i..])) else NoHeader
    decreases |lines| - i
  {
    hide Trim;
    if i < |lines| {
      var rest := lines[i..];
      assert rest[0] == lines[i] && rest[1..] == lines[i + 1..];
      var e := k.decode(lines[i]);
      var more := if Trim(lines[i]) != "" && e.Some? then [e.value] else [];
      assert entries + more + Body(k, rest[1..]) == entries + (more + Body(k, rest[1..]));
      assert entries + [] == entries;
      ReadOn(k, lines, i + 1, header, entries + more);
      assert AllDecode(k, lines, i) <==> (Trim(lines[i]) != "" ==> e.Some?) && AllDecode(k, lines, i + 1);
    } else {
      assert entries + [] == entries;
    }
  }

  /**
   * A file can be read exactly when its very first line is a header of the known version and every later line that is
   * not blank is an entry. What is read is then that header and those entries, in order.
   */
  lemma ReadableExactly(k: Codec, text: string)
    ensures var ls := Lines(text);
            && (ReadText(k, text).Read? <==> ls != [] && HeaderLine(k, ls[0]) && AllDecode(k, ls, 1))
            && (ReadText(k, text).Read? ==> ReadText(k, text) == Read(k.decode(ls[0]).value, Body(k, ls[1..])))
  {
    hide Trim, Lines, AllDecode, Body;
    var ls := Lines(text);
    if ls != [] {
      var e := k.decode(ls[0]);
      ReadOn(k, ls, 1, None, []);
      ReadOn(k, ls, 1, e, []);
      assert [] + Body(k, ls[1..]) == Body(k, ls[1..]);
    }
  }

  /** A blank first line is never skipped: with entries behind it there is no header, whatever they are. */
  lemma BlankFirstLine(k: Codec, text: string)
    requires Lines(text) != [] && Trim(Lines(text)[0]) == ""
    ensures ReadText(k, text) == NoHeader || ReadText(k, text).ParseError?
    ensures ReadText(k, text) == NoHeader <==> AllDecode(k, Lines(text), 1)
  {
    hide Trim, Lines, AllDecode;
    ReadOn(k, Lines(text), 1, None, []);
  }

  // ---------- lines and splits ----------

  lemma {:induction false} SplitJoins(s: string)
    ensures Join(SplitNewlines(s), "\n") == s && NewlineFreeLines(SplitNewlines(s))
  {
    hide Join;
    if s == "" {
      JoinOne("", "\n");
    } else {
      SplitJoins(s[1..]);
      var rest := SplitNewlines(s[1..]);
      if s[0] == '\n' {
        JoinFront("", rest);
      } else {
        JoinPush(s[0], rest);
      }
    }
  }

  lemma JoinFront(l: string, ls: seq<string>)
    requires ls != []
    ensures Join([l] + ls, "\n") == l + "\n" + Join(ls, "\n")
  {
    assert ([l] + ls)[1..] == ls;
  }

  lemma JoinPush(c: char, ls: seq<string>)
    requires ls != []
    ensures Join([[c] + ls[0]] + ls[1..], "\n") == [c] + Join(ls, "\n")
  {
    var ms := [[c] + ls[0]] + ls[1..];
    assert ms[1..] == ls[1..];
    if |ls| > 1 {
      assert ([c] + ls[0]) + "\n" + Join(ls[1..], "\n") == [c] + (ls[0] + "\n" + Join(ls[1..], "\n"));
    }
  }

  /** The lines of split pieces joined again: all but the last lose a carriage return, and an empty last one is none. */
  function LinesOfPieces(ps: seq<string>): seq<string>
    requires ps != []
  {
    var n := |ps| - 1;
    StripCrs(ps[..n]) + if ps[n] == "" then [] else [ps[n]]
  }

  lemma LinesOfJoined(ps: seq<string>)
    requires ps != [] && NewlineFreeLines(ps)
    ensures Lines(Join(ps, "\n")) == LinesOfPieces(ps)
  {
    hide Join, Lines, Unlines, StripCr, NewlineFree;
    var n := |ps| - 1;
    JoinedShape(ps);
    if ps[n] == "" {
      assert Unlines(ps[..n]) + "" == Unlines(ps[..n]);
      LinesOfUnlines(ps[..n]);
    } else {
      LinesOfTorn(ps[..n], ps[n]);
    }
  }

  lemma JoinedShape(ps: seq<string>)
    requires ps != []
    ensures Join(ps, "\n") == Unlines(ps[..|ps| - 1]) + ps[|ps| - 1]
  {
    if |ps| > 1 {
      JoinInit(ps);
    } else {
      assert ps[..0] == [];
    }
  }

  lemma LinesOfTorn(ls: seq<string>, z: string)
    requires NewlineFreeLines(ls) && NewlineFree(z) && z != ""
    ensures Lines(Unlines(ls) + z) == StripCrs(ls) + [z]
  {
    hide StripCr, StripEol, Unlines, NewlineFree, SplitInclusive;
    SplitTornTail(ls, z);
    forall i | 0 <= i < |ls| ensures StripEol(ls[i] + "\n") == StripCr(ls[i]) {
      StripEolOfLine(ls[i]);
    }
    TornKept(z);
  }

  lemma TornKept(z: string)
    requires NewlineFree(z) && z != ""
    ensures StripEol(z) == z
  {
    assert z[|z| - 1] in z;
  }

  // ---------- renaming any readable file ----------

  /** A trailing carriage return means nothing to the decoder, as white space behind a JSON value does not. */
  ghost predicate CrBlind(k: Codec) {
    forall l :: k.decode(l + "\r") == k.decode(l)
  }

  lemma DecodeStripped(k: Codec, l: string)
    requires CrBlind(k)
    ensures k.decode(StripCr(l)) == k.decode(l)
  {
    var s := StripCr(l);
    assert s != l ==> l == s + "\r";
  }

  lemma StrippedBlank(l: string)
    ensures Trim(l) == "" ==> Trim(StripCr(l)) == ""
  {
    hide IsWhitespace;
    var w, v := TrimSplit(l);
    BlankConcat(w, v);
    var s := StripCr(l);
    assert Trim(l) == "" ==> l == w + v;
    assert Blank(l) ==> Blank(s);
    assert Blank(s) ==> s + "" + "" == s;
    if Blank(s) { TrimUnique(s, "", ""); }
  }

  lemma FirstPiece(k: Codec, ps: seq<string>)
    requires CrBlind(k) && ps != [] && LinesOfPieces(ps) != [] && HeaderLine(k, LinesOfPieces(ps)[0])
    ensures HeaderLine(k, ps[0]) && k.decode(ps[0]) == k.decode(LinesOfPieces(ps)[0])
  {
    hide Trim, StripCr, GoodHeader;
    DecodeStripped(k, ps[0]);
    StrippedBlank(ps[0]);
  }

  /** Replacing the first piece replaces the first line. */
  lemma ReplacedFirst(ps: seq<string>, l: string)
    requires ps != [] && LinesOfPieces(ps) != [] && l != "" && StripCr(l) == l
    ensures LinesOfPieces(ps[0 := l]) == LinesOfPieces(ps)[0 := l]
  {
    hide StripCr;
    var n := |ps| - 1;
    if n > 0 {
      assert ps[0 := l][..n] == ps[..n][0 := l];
    }
  }

  /** Whatever a readable file looks like, renaming it succeeds, sets the name, and keeps every entry. */
  lemma RenameAnyReadable(k: Codec, text: string, name: Option<string>)
    requires Lawful(k) && CrBlind(k) && ReadText(k, text).Read?
    ensures var r := ReadText(k, text);
            && r.header.Header? && Renamed(k, text, name).Some?
            && ReadText(k, Renamed(k, text, name).value) == Read(r.header.(name := name), r.entries)
  {
    hide Trim, Lines, Join, SplitNewlines, AllDecode, Body, Lawful, CrBlind, LinesOfPieces, ReadText, StripCr;
    var ps, ls := SplitNewlines(text), Lines(text);
    SplitJoins(text);
    LinesOfJoined(ps);
    ReadableExactly(k, text);
    FirstPiece(k, ps);
    var h := k.decode(ls[0]).value;
    var l := k.encode(h.(name := name));
    EncodedLine(k, h.(name := name));
    EmptyTrims();
    ReplacedFirst(ps, l);
    SameRest(k, ls, l);
    var qs := ps[0 := l];
    ReplacedNewlineFree(ps, l);
    LinesOfJoined(qs);
    ReadableExactly(k, Join(qs, "\n"));
  }

  lemma ReplacedNewlineFree(ps: seq<string>, l: string)
    requires ps != [] && NewlineFreeLines(ps) && NewlineFree(l)
    ensures NewlineFreeLines(ps[0 := l])
  {
    hide NewlineFree;
  }

  lemma SameRest(k: Codec, ls: seq<string>, l: string)
    requires ls != []
    ensures ls[0 := l][1..] == ls[1..]
    ensures AllDecode(k, ls[0 := l], 1) <==> AllDecode(k, ls, 1)
  {
    hide Trim;
  }

  // ---------- a blank line in front ----------

  /** A blank line before a whole session makes it unreadable, though it can still be renamed. */
  lemma LeadingBlankLine(k: Codec, h: Entry, es: seq<Entry>, name: Option<string>)
    requires Lawful(k) && GoodHeader(h)
    ensures ReadText(k, "\n" + Written(k, h, es)) == NoHeader
    ensures Renamed(k, "\n" + Written(k, h, es), name) == Some("\n" + Written(k, h.(name := name), es))
  {
    hide Trim, Lines, Join, SplitNewlines, AllDecode, Unlines, Lawful, ReadText;
    var all := [h] + es;
    var ls := EncodeAll(k, all);
    LinesOfBlankLed(k, all);
    assert Trim("") == "" by { EmptyTrims(); }
    BlankFirstLine(k, "\n" + Unlines(ls));
    RenamedBehindBlank(k, h, es, name);
  }

  lemma EmptyTrims()
    ensures Trim("") == ""
  {
  }

  lemma EncodedLines(k: Codec, all: seq<Entry>)
    requires Lawful(k)
    ensures NewlineFreeLines(EncodeAll(k, all)) && StripCrs(EncodeAll(k, all)) == EncodeAll(k, all)
  {
    hide StripCr, Lawful, NewlineFree, Trim;
    var ls := EncodeAll(k, all);
    forall i | 0 <= i < |all| ensures NewlineFree(ls[i]) && StripCr(ls[i]) == ls[i] {
      EncodedLine(k, all[i]);
    }
  }

  lemma LinesOfBlankLed(k: Codec, all: seq<Entry>)
    requires Lawful(k)
    ensures "\n" + Unlines(EncodeAll(k, all)) == Unlines([""] + EncodeAll(k, all))
    ensures Lines("\n" + Unlines(EncodeAll(k, all))) == [""] + EncodeAll(k, all)
    ensures AllDecode(k, [""] + EncodeAll(k, all), 1)
  {
    hide StripCr, Lawful, NewlineFree, Trim, Lines, Unlines;
    var ls := EncodeAll(k, all);
    EncodedLines(k, all);
    UnlinesCons("", ls);
    assert "" + "\n" + Unlines(ls) == "\n" + Unlines(ls);
    assert NewlineFree("") && StripCr("") == "" by { EmptyLine(); }
    LinesOfUnlines([""] + ls);
    assert StripCrs([""] + ls) == [""] + StripCrs(ls);
    forall j | 1 <= j < |[""] + ls| ensures k.decode(([""] + ls)[j]).Some? {
      EncodedLine(k, all[j - 1]);
    }
  }

  lemma EmptyLine()
    ensures NewlineFree("") && StripCr("") == ""
  {
  }

  lemma RenamedBehindBlank(k: Codec, h: Entry, es: seq<Entry>, name: Option<string>)
    requires Lawful(k) && GoodHeader(h)
    ensures Renamed(k, "\n" + Written(k, h, es), name) == Some("\n" + Written(k, h.(name := name), es))
  {
    hide StripCr, Lawful, NewlineFree, Trim, Unlines, SplitNewlines, Join, AllDecode, Lines;
    var h' := h.(name := name);
    var ls, ms := EncodeAll(k, [h] + es), EncodeAll(k, [h'] + es);
    LinesOfBlankLed(k, [h] + es);
    LinesOfBlankLed(k, [h'] + es);
    EncodedLines(k, [h] + es);
    assert NewlineFree("") by { EmptyLine(); }
    SplitOfUnlines([""] + ls);
    EncodedLine(k, h);
    var split := [""] + ls + [""];
    assert split[1] == k.encode(h) && split[1..][0] == k.encode(h);
    assert Trim("") == "" by { EmptyTrims(); }
    assert FirstNonBlank(split[1..]) == 0 && FirstNonBlank(split) == 1;
    assert ms == ls[0 := k.encode(h')];
    assert split[1 := k.encode(h')] == [""] + ms + [""];
    JoinTerminated([""] + ms);
  }
}
