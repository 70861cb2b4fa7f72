/** Laws relating reading, setting and inserting front-matter fields. */
module FrontMatterLaws {
  import opened Text
  import opened Brief
  import opened FrontMatter

  /** A key without the separator: the only kind a reader can find. */
  predicate PlainKey(key: string) { Find(key, SEP) == |key| }

  predicate LowerKey(key: string) {
    key != "" && forall i :: 0 <= i < |key| ==> 'a' <= key[i] <= 'z'
  }

  lemma {:induction false} LowerKeyPlain(key: string)
    requires forall i :: 0 <= i < |key| ==> 'a' <= key[i] <= 'z'
    ensures PlainKey(key)
  {
    if key != "" {
      assert forall i :: 0 <= i < |key| - 1 ==> key[1..][i] == key[i + 1];
      LowerKeyPlain(key[1..]);
      assert SEP[0] == ':' && key[0] != ':';
      assert |key| >= 2 ==> key[..2][0] == key[0];
    }
  }

  predicate KeyIs(line: string, key: string) {
    SplitOnce(line).Some? && SplitOnce(line).value.key == key
  }

  // ---------- one line ----------

  lemma FindAfterKey(key: string, rest: string)
    requires PlainKey(key)
    ensures Find(key + SEP + rest, SEP) == |key|
  {
    hide Find;
    var s := key + SEP + rest;
    assert s[|key|..] == SEP + rest;
    forall k | 0 <= k < |key| ensures !(SEP <= s[k..]) {
      assert !(SEP <= key[k..]) by { NoSeparator(key, k); }
      assert s[k..][0] == key[k..][0];
      assert s[k..][1] == if k + 1 < |key| then key[k..][1] else ':';
    }
    FindUnique(s, SEP, |key|);
  }

  lemma NoSeparator(key: string, k: nat)
    requires PlainKey(key) && k < |key|
    ensures !(SEP <= key[k..])
  {
    var i := Find(key, SEP);
  }

  lemma KeyedLine(key: string, line: string)
    requires PlainKey(key) && StartsWith(line, key + SEP)
    ensures SplitOnce(line) == Some(Field(key, line[|key| + 2..]))
  {
    hide Find;
    var rest := line[|key| + 2..];
    assert line[..|key| + 2] == key + SEP;
    assert line == key + SEP + rest;
    FindAfterKey(key, rest);
    assert line[..|key|] == key;
  }

  lemma LineOfKey(key: string, line: string)
    requires KeyIs(line, key)
    ensures StartsWith(line, key + SEP)
  {
    hide Find;
    var i := Find(line, SEP);
    assert line[..i] == key && SEP <= line[i..];
    assert line == line[..i] + line[i..];
  }

  lemma FenceHasNoKey(key: string)
    ensures !StartsWith(FENCE, key + SEP)
  {
    assert (key + SEP)[|key|] == ':';
    assert forall i :: 0 <= i < |FENCE| ==> FENCE[i] == '-';
  }

  /** The trimmed piece and the line read from it have the same prefixes that end in a proper character. */
  lemma BarePrefix(p: string, x: string)
    requires FullLine(p) || Torn(p)
    requires x != "" && !IsEol(x[|x| - 1])
    ensures x <= TrimEol(p) <==> x <= StripEol(p)
  {
    var b, l := TrimEol(p), StripEol(p);
    assert b == p[..|b|] && l == p[..|l|];
    assert forall i :: |l| <= i < |p| ==> IsEol(p[i]);
    assert b != "" ==> b[|b| - 1] == p[|b| - 1] && !IsEol(p[|b| - 1]);
    if x <= l {
      assert x == p[..|x|] && x[|x| - 1] == p[|x| - 1];
    }
  }

  lemma BareField(p: string, key: string)
    requires FullLine(p) || Torn(p)
    ensures HasField(p, key) <==> StartsWith(StripEol(p), key + SEP)
  {
    hide TrimEol, StripEol, FullLine, Torn;
    BarePrefix(p, key + SEP);
  }

  lemma FieldIsKey(p: string, key: string)
    requires FullLine(p) || Torn(p)
    requires PlainKey(key)
    ensures HasField(p, key) <==> KeyIs(StripEol(p), key)
  {
    hide StripEol, HasField, PlainKey, StartsWith, FullLine, Torn, SplitOnce;
    BareField(p, key);
    if HasField(p, key) { KeyedLine(key, StripEol(p)); }
    if KeyIs(StripEol(p), key) { LineOfKey(key, StripEol(p)); }
  }

  lemma LineNotFence(p: string)
    requires FullLine(p) || Torn(p)
    requires !IsFence(p)
    ensures StripEol(p) != FENCE
  {
    hide StripEol, FullLine, Torn;
    if StripEol(p) == FENCE {
      BarePrefix(p, FENCE);
      BareShorter(p);
    }
  }

  lemma BareShorter(p: string)
    requires FullLine(p) || Torn(p)
    ensures |TrimEol(p)| <= |StripEol(p)|
  {
    var b, l := TrimEol(p), StripEol(p);
    assert b == p[..|b|] && l == p[..|l|];
    assert forall i :: |l| <= i < |p| ==> IsEol(p[i]);
    assert b != "" ==> b[|b| - 1] == p[|b| - 1] && !IsEol(p[|b| - 1]);
  }

  // ---------- the written line ----------

  function Written(key: string, value: string): string { key + SEP + FmValue(value) }

  predicate LineEnding(e: string) { e == "\n" || e == "\r\n" }

  lemma TrimEolOfEnding(l: string, e: string)
    requires l != "" && !IsEol(l[|l| - 1]) && LineEnding(e)
    ensures TrimEol(l + e) == l && StripEol(l + e) == l
  {
    var p := l + e;
    assert p[..|p| - 1] == if e == "\n" then l else l + "\r";
    assert (l + "\r")[..|l|] == l;
  }

  lemma WrittenLine(key: string, value: string, e: string)
    requires LineEnding(e) && NewlineFree(key)
    ensures var p := FieldLine(key, value, e);
            FullLine(p) && TrimEol(p) == StripEol(p) == Written(key, value)
    ensures HasField(FieldLine(key, value, e), key) && !IsFence(FieldLine(key, value, e))
  {
    hide FmValue, TrimEol, StripEol;
    FmValueOneLine(value);
    var w := Written(key, value);
    var p := FieldLine(key, value, e);
    assert p == w + e;
    assert NewlineFree(w);
    assert w[|w| - 1] == FmValue(value)[|FmValue(value)| - 1];
    TrimEolOfEnding(w, e);
    assert p[..|p| - 1] == if e == "\n" then w else w + "\r";
    FenceHasNoKey(key);
  }

  lemma WrittenKey(key: string, value: string)
    requires PlainKey(key)
    ensures SplitOnce(Written(key, value)) == Some(Field(key, FmValue(value)))
    ensures Written(key, value) != FENCE
  {
    hide FmValue, SplitOnce;
    var w := Written(key, value);
    KeyedLine(key, w);
    assert w[|key| + 2..] == FmValue(value);
    FenceHasNoKey(key);
  }

  // ---------- looking up in lines ----------

  function LookupLines(lines: seq<string>, key: string): Option<string> {
    if lines == [] || lines[0] == FENCE then None
    else if KeyIs(lines[0], key) then Some(SplitOnce(lines[0]).value.value)
    else LookupLines(lines[1..], key)
  }

  lemma {:induction false} LookupPairs(lines: seq<string>, key: string)
    ensures Lookup(Pairs(lines), key) == LookupLines(lines, key)
  {
    hide SplitOnce;
    if lines != [] && lines[0] != FENCE {
      LookupPairs(lines[1..], key);
      var kv := SplitOnce(lines[0]);
      if kv.Some? {
        assert ([kv.value] + Pairs(lines[1..]))[1..] == Pairs(lines[1..]);
      } else {
        assert [] + Pairs(lines[1..]) == Pairs(lines[1..]);
      }
    }
  }

  lemma GetLines(content: string, key: string)
    ensures Get(content, key) == if Visible(Lines(content)) then LookupLines(Lines(content)[1..], key) else None
  {
    hide Lines, Pairs, LookupLines;
    if Visible(Lines(content)) { LookupPairs(Lines(content)[1..], key); }
  }

  lemma {:induction false} LookupSkip(lines: seq<string>, i: nat, key: string)
    requires i <= |lines|
    requires forall k :: 0 <= k < i ==> lines[k] != FENCE && !KeyIs(lines[k], key)
    ensures LookupLines(lines, key) == LookupLines(lines[i..], key)
  {
    hide KeyIs;
    if i > 0 {
      LookupSkip(lines[1..], i - 1, key);
      assert lines[1..][i - 1..] == lines[i..];
    } else {
      assert lines[0..] == lines;
    }
  }

  lemma {:induction false} LookupReplace(lines: seq<string>, i: nat, l: string, key: string)
    requires i < |lines|
    requires lines[i] != FENCE && !KeyIs(lines[i], key) && l != FENCE && !KeyIs(l, key)
    ensures LookupLines(lines[i := l], key) == LookupLines(lines, key)
  {
    hide KeyIs;
    var r := lines[i := l];
    if i == 0 {
      assert r[1..] == lines[1..];
    } else {
      LookupReplace(lines[1..], i - 1, l, key);
      assert r[1..] == lines[1..][i - 1 := l];
    }
  }

  lemma {:induction false} LookupInsert(lines: seq<string>, i: nat, l: string, key: string)
    requires i <= |lines| && l != FENCE && !KeyIs(l, key)
    ensures LookupLines(lines[..i] + [l] + lines[i..], key) == LookupLines(lines, key)
  {
    hide KeyIs;
    var r := lines[..i] + [l] + lines[i..];
    if i == 0 {
      assert r[1..] == lines;
    } else {
      LookupInsert(lines[1..], i - 1, l, key);
      assert r[1..] == lines[1..][..i - 1] + [l] + lines[1..][i - 1..];
    }
  }

  // ---------- setting ----------

  lemma PieceKinds(ps: seq<string>, i: nat)
    requires WellSplit(ps) && i < |ps|
    ensures FullLine(ps[i]) || Torn(ps[i])
    ensures i < |ps| - 1 ==> FullLine(ps[i])
  {
  }

  /** The piece a field sits in is a full line, so its key holds no newline. */
  lemma FieldPiece(p: string, key: string)
    requires FullLine(p) && HasField(p, key)
    ensures LineEnding(Ending(p)) && NewlineFree(key)
  {
    hide TrimEol;
    BareField(p, key);
    var l := StripEol(p);
    assert key + SEP == l[..|key| + 2] == p[..|key| + 2];
    assert |key| + 2 <= |p| - 1;
    assert p[..|p| - 1][..|key|] == key;
    EndingOfFull(p);
  }

  lemma EndingOfFull(p: string)
    requires FullLine(p)
    ensures LineEnding(Ending(p))
  {
  }

  lemma ReplaceWellSplit(ps: seq<string>, f: nat, p: string)
    requires WellSplit(ps) && f < |ps| - 1 && FullLine(p)
    ensures WellSplit(ps[f := p])
  {
    hide FullLine, Torn;
  }

  /** What a successful set leaves: the same pieces but one. */
  lemma SetShape(content: string, key: string, value: string) returns (ps: seq<string>, f: nat, c: nat, p: string)
    requires SetField(content, key, value).Some?
    ensures ps == SplitInclusive(content) && Opened(ps)
    ensures f == FieldFrom(ps, 1, key) && c == FenceFrom(ps, 1) && 1 <= f < c < |ps|
    ensures p == FieldLine(key, value, Ending(ps[f])) && LineEnding(Ending(ps[f])) && NewlineFree(key)
    ensures SplitInclusive(SetField(content, key, value).value) == ps[f := p]
  {
    hide FieldLine, IsFence, HasField, Ending, FieldFrom, FenceFrom, SplitInclusive, FullLine, Torn;
    ps := SplitInclusive(content);
    f, c := FieldFrom(ps, 1, key), FenceFrom(ps, 1);
    p := FieldLine(key, value, Ending(ps[f]));
    PieceKinds(ps, f);
    FieldPiece(ps[f], key);
    WrittenLine(key, value, Ending(ps[f]));
    ReplaceWellSplit(ps, f, p);
    SplitUnique(ps[f := p]);
  }

  lemma SetLines(content: string, key: string, value: string) returns (ls: seq<string>, f: nat)
    requires SetField(content, key, value).Some?
    ensures ls == Lines(content) && 1 <= f < |ls|
    ensures Lines(SetField(content, key, value).value) == ls[f := Written(key, value)]
    ensures forall k :: 1 <= k < f ==> ls[k] != FENCE
    ensures PlainKey(key) ==> KeyIs(ls[f], key) && forall k :: 1 <= k < f ==> !KeyIs(ls[k], key)
    ensures ls[f] != FENCE
  {
    hide FieldLine, IsFence, HasField, FieldFrom, FenceFrom, SplitInclusive, FullLine, Torn, StripEol, KeyIs;
    hide Written, PlainKey;
    hide SetField;
    var ps: seq<string>, c: nat, p: string;
    ps, f, c, p := SetShape(content, key, value);
    ls := Lines(content);
    WrittenLine(key, value, Ending(ps[f]));
    forall k | 1 <= k <= f
      ensures ls[k] != FENCE && (PlainKey(key) ==> (HasField(ps[k], key) <==> KeyIs(ls[k], key)))
    {
      PieceKinds(ps, k);
      LineNotFence(ps[k]);
      if PlainKey(key) { FieldIsKey(ps[k], key); }
    }
  }

  /** Get after set: the stored value, exactly when the reader sees the block at all. */
  lemma SetThenGet(content: string, key: string, value: string)
    requires PlainKey(key) && SetField(content, key, value).Some?
    ensures Get(SetField(content, key, value).value, key)
         == if Visible(Lines(content)) then Some(FmValue(value)) else None
  {
    hide PlainKey, SetField, Lines, FmValue, KeyIs, Written, LookupLines, SplitOnce;
    var updated := SetField(content, key, value).value;
    var ls, f := SetLines(content, key, value);
    GetLines(updated, key);
    WrittenKey(key, value);
    ReplacedIsFound(ls, f, Written(key, value), key, FmValue(value));
  }

  lemma ReplacedIsFound(ls: seq<string>, f: nat, w: string, key: string, value: string)
    requires 1 <= f < |ls| && w != FENCE && SplitOnce(w) == Some(Field(key, value))
    requires forall k :: 1 <= k < f ==> ls[k] != FENCE && !KeyIs(ls[k], key)
    ensures LookupLines(ls[f := w][1..], key) == Some(value)
  {
    hide KeyIs, SplitOnce, LookupLines;
    var rest := ls[f := w][1..];
    assert forall k :: 0 <= k < f - 1 ==> rest[k] == ls[k + 1];
    LookupSkip(rest, f - 1, key);
    LookupFirst(rest[f - 1..], key, value);
  }

  lemma LookupFirst(lines: seq<string>, key: string, value: string)
    requires lines != [] && lines[0] != FENCE && SplitOnce(lines[0]) == Some(Field(key, value))
    ensures LookupLines(lines, key) == Some(value)
  {
    hide SplitOnce;
  }

  /** Other keys keep their values. */
  lemma SetKeepsOtherKeys(content: string, key: string, value: string, other: string)
    requires PlainKey(key) && other != key && SetField(content, key, value).Some?
    ensures Get(SetField(content, key, value).value, other) == Get(content, other)
  {
    hide PlainKey, SetField, Lines, FmValue, Written, LookupLines, SplitOnce;
    var updated := SetField(content, key, value).value;
    var ls, f := SetLines(content, key, value);
    GetLines(updated, other);
    GetLines(content, other);
    WrittenKey(key, value);
    ReplacedIsSkipped(ls, f, Written(key, value), other);
  }

  lemma ReplacedIsSkipped(ls: seq<string>, f: nat, w: string, other: string)
    requires 1 <= f < |ls| && ls[f] != FENCE && !KeyIs(ls[f], other) && w != FENCE && !KeyIs(w, other)
    ensures LookupLines(ls[f := w][1..], other) == LookupLines(ls[1..], other)
  {
    hide KeyIs, SplitOnce, LookupLines;
    LookupReplace(ls[1..], f - 1, w, other);
    assert ls[f := w][1..] == ls[1..][f - 1 := w];
  }

  /** Everything outside the one line stays as it was, in particular all after the block. */
  lemma SetChangesOneLine(content: string, key: string, value: string)
    returns (before: string, oldLine: string, after: string)
    requires SetField(content, key, value).Some?
    ensures content == before + oldLine + after && FullLine(oldLine) && HasField(oldLine, key)
    ensures SetField(content, key, value) == Some(before + FieldLine(key, value, Ending(oldLine)) + after)
    ensures |SplitInclusive(before)| < FenceFrom(SplitInclusive(content), 1)
  {
    hide FieldLine, IsFence, HasField, Ending, FieldFrom, FenceFrom, SplitInclusive, FullLine, Torn, SetField;
    var ps, f, c, p := SetShape(content, key, value);
    before, oldLine, after := Concat(ps[..f]), ps[f], Concat(ps[f + 1..]);
    PieceKinds(ps, f);
    CutAround(ps, f);
    CutAround(ps[f := p], f);
    assert ps[f := p][..f] == ps[..f] && ps[f := p][f + 1..] == ps[f + 1..];
    PrefixWellSplit(ps, f);
    SplitUnique(ps[..f]);
    SetText(content, key, value);
  }

  lemma SetText(content: string, key: string, value: string)
    requires SetField(content, key, value).Some?
    ensures SetField(content, key, value) == Some(Concat(SplitInclusive(SetField(content, key, value).value)))
  {
  }

  lemma PrefixWellSplit(ps: seq<string>, f: nat)
    requires WellSplit(ps) && f < |ps|
    ensures WellSplit(ps[..f])
  {
    hide FullLine, Torn;
  }

  lemma CutAround(ps: seq<string>, f: nat)
    requires f < |ps|
    ensures Concat(ps) == Concat(ps[..f]) + ps[f] + Concat(ps[f + 1..])
  {
    assert ps == ps[..f] + ps[f..];
    ConcatAppend(ps[..f], ps[f..]);
    assert ps[f..][1..] == ps[f + 1..];
  }

  /** Setting twice leaves the last value. */
  lemma SetTwice(content: string, key: string, v1: string, v2: string)
    requires SetField(content, key, v1).Some?
    ensures SetField(SetField(content, key, v1).value, key, v2) == SetField(content, key, v2)
    ensures SetField(content, key, v2).Some?
  {
    hide FieldLine, IsFence, HasField, Ending, FieldFrom, FenceFrom, SplitInclusive, FullLine, Torn, Concat;
    var ps, f, c, p := SetShape(content, key, v1);
    var qs := ps[f := p];
    WrittenLine(key, v1, Ending(ps[f]));
    FenceFromUnique(qs, 1, c);
    FieldFromUnique(qs, 1, key, f);
    EndingOfWritten(key, v1, Ending(ps[f]));
    assert qs[f := FieldLine(key, v2, Ending(qs[f]))] == ps[f := FieldLine(key, v2, Ending(ps[f]))];
  }

  lemma EndingOfWritten(key: string, value: string, e: string)
    requires LineEnding(e)
    ensures Ending(FieldLine(key, value, e)) == e
  {
    hide FmValue;
    FmValueOneLine(value);
    var p := FieldLine(key, value, e);
    var v := FmValue(value);
    assert p == (key + SEP + v) + e;
    assert e == "\n" ==> p[|p| - 2] == v[|v| - 1];
    assert e == "\r\n" ==> p[|p| - 2..] == e;
  }

  // ---------- amendments are untouched ----------

  lemma MarkerHasNoSeparator(j: nat)
    requires j + 1 < |AMENDMENTS_MARKER|
    ensures AMENDMENTS_MARKER[j] == ':' ==> AMENDMENTS_MARKER[j + 1] != ' '
  {
    assert j <= 11 || AMENDMENTS_MARKER[j] != ':';
  }

  lemma FieldNotMarker(p: string, key: string)
    requires HasField(p, key)
    ensures !IsMarkerLine(p)
  {
    hide TrimEol, Trim;
    var n := |key|;
    assert p[n] == (key + SEP)[n] == ':' && p[n + 1] == (key + SEP)[n + 1] == ' ';
    if IsMarkerLine(p) {
      var w, v := TrimSplit(p);
      SeparatorOutside(w, v, n);
    }
  }

  lemma SeparatorOutside(w: string, v: string, n: nat)
    requires Blank(w) && Blank(v)
    requires n + 1 < |w + AMENDMENTS_MARKER + v|
    ensures var p := w + AMENDMENTS_MARKER + v; p[n] != ':' || p[n + 1] != ' '
  {
    hide IsWhitespace;
    var p := w + AMENDMENTS_MARKER + v;
    var m := |AMENDMENTS_MARKER|;
    ColonSolid();
    assert AMENDMENTS_MARKER[m - 1] == '>';
    if n < |w| {
      assert p[n] == w[n];
    } else if n < |w| + m - 1 {
      assert p[n] == AMENDMENTS_MARKER[n - |w|] && p[n + 1] == AMENDMENTS_MARKER[n - |w| + 1];
      MarkerHasNoSeparator(n - |w|);
    } else if n >= |w| + m {
      assert p[n] == v[n - |w| - m];
    }
  }

  lemma ColonSolid()
    ensures !IsWhitespace(':')
  {
  }

  // ---------- inserting ----------

  /** What an insertion leaves: one new line just before the closing fence. */
  lemma InsertShape(content: string, key: string, value: string) returns (ps: seq<string>, c: nat, p: string)
    requires Closed(SplitInclusive(content)) && !HasKey(SplitInclusive(content), key) && NewlineFree(key)
    ensures ps == SplitInclusive(content) && c == FenceFrom(ps, 1) && 1 <= c < |ps|
    ensures p == FieldLine(key, value, "\n") && UpsertField(content, key, value).Some?
    ensures SplitInclusive(UpsertField(content, key, value).value) == ps[..c] + [p] + ps[c..]
  {
    hide FieldLine, IsFence, FieldFrom, FenceFrom, SplitInclusive, FullLine, Torn;
    ps := SplitInclusive(content);
    c := FenceFrom(ps, 1);
    p := FieldLine(key, value, "\n");
    WrittenLine(key, value, "\n");
    InsertWellSplit(ps, c, p);
    SplitUnique(ps[..c] + [p] + ps[c..]);
  }

  lemma InsertWellSplit(ps: seq<string>, c: nat, p: string)
    requires WellSplit(ps) && c < |ps| && FullLine(p)
    ensures WellSplit(ps[..c] + [p] + ps[c..])
  {
    hide FullLine, Torn;
    var r := ps[..c] + [p] + ps[c..];
    assert forall i :: 0 <= i < |r| ==> r[i] == if i < c then ps[i] else if i == c then p else ps[i - 1];
  }

  lemma InsertLines(content: string, key: string, value: string) returns (ls: seq<string>, c: nat)
    requires Closed(SplitInclusive(content)) && !HasKey(SplitInclusive(content), key) && NewlineFree(key)
    ensures ls == Lines(content) && 1 <= c < |ls|
    ensures UpsertField(content, key, value).Some?
    ensures Lines(UpsertField(content, key, value).value) == ls[..c] + [Written(key, value)] + ls[c..]
    ensures forall k :: 1 <= k < c ==> ls[k] != FENCE && (PlainKey(key) ==> !KeyIs(ls[k], key))
  {
    hide FieldLine, IsFence, HasField, FieldFrom, FenceFrom, SplitInclusive, FullLine, Torn, StripEol, KeyIs;
    hide Written, PlainKey;
    hide UpsertField;
    var ps: seq<string>, p: string;
    ps, c, p := InsertShape(content, key, value);
    ls := Lines(content);
    WrittenLine(key, value, "\n");
    forall k | 1 <= k < c
      ensures ls[k] != FENCE && (PlainKey(key) ==> !KeyIs(ls[k], key))
    {
      PieceKinds(ps, k);
      LineNotFence(ps[k]);
      if PlainKey(key) { FieldIsKey(ps[k], key); }
    }
    var qs := ps[..c] + [p] + ps[c..];
    assert forall i :: 0 <= i < |qs| ==> qs[i] == if i < c then ps[i] else if i == c then p else ps[i - 1];
  }

  /** An insertion adds one line, just before the closing fence, and changes nothing else. */
  lemma UpsertAddsOneLine(content: string, key: string, value: string) returns (before: string, after: string)
    requires Closed(SplitInclusive(content)) && !HasKey(SplitInclusive(content), key) && NewlineFree(key)
    ensures content == before + after
    ensures UpsertField(content, key, value) == Some(before + FieldLine(key, value, "\n") + after)
    ensures |SplitInclusive(before)| == FenceFrom(SplitInclusive(content), 1)
    ensures SplitInclusive(after) != [] && IsFence(SplitInclusive(after)[0])
  {
    hide FieldLine, IsFence, FieldFrom, FenceFrom, SplitInclusive, FullLine, Torn, UpsertField;
    var ps, c, p := InsertShape(content, key, value);
    before, after := Concat(ps[..c]), Concat(ps[c..]);
    assert ps == ps[..c] + ps[c..];
    ConcatAppend(ps[..c], ps[c..]);
    var qs := ps[..c] + [p] + ps[c..];
    assert qs[..c] == ps[..c] && qs[c] == p && qs[c + 1..] == ps[c..];
    CutAround(qs, c);
    PrefixWellSplit(ps, c);
    SplitUnique(ps[..c]);
    WellSplitSuffix(ps, c);
    UpsertText(content, key, value);
  }

  lemma UpsertText(content: string, key: string, value: string)
    requires UpsertField(content, key, value).Some?
    ensures UpsertField(content, key, value) == Some(Concat(SplitInclusive(UpsertField(content, key, value).value)))
  {
  }

  /** An unterminated block is returned unchanged, so the field is then not stored. */
  lemma UpsertUnterminated(content: string, key: string, value: string)
    ensures UpsertField(content, key, value).None? <==> !Opened(SplitInclusive(content))
    ensures Opened(SplitInclusive(content)) && !Closed(SplitInclusive(content)) ==>
              UpsertField(content, key, value) == Some(content)
  {
    hide IsFence, SplitInclusive, FieldLine;
  }

  /** Get after upsert: the stored value on a closed block the reader can see; nothing new on an unterminated one. */
  lemma UpsertThenGet(content: string, key: string, value: string)
    requires PlainKey(key) && NewlineFree(key) && UpsertField(content, key, value).Some?
    ensures Get(UpsertField(content, key, value).value, key)
         == if !Closed(SplitInclusive(content)) then Get(content, key)
            else if Visible(Lines(content)) then Some(FmValue(value)) else None
  {
    hide PlainKey, Lines, FmValue, KeyIs, Written, LookupLines, FieldLine, SplitInclusive, Closed, Concat;
    UpsertUnterminated(content, key, value);
    if HasKey(SplitInclusive(content), key) {
      SetThenGet(content, key, value);
    } else if Closed(SplitInclusive(content)) {
      InsertThenGet(content, key, value);
    }
  }

  lemma InsertedIsFound(ls: seq<string>, c: nat, w: string, key: string, value: string)
    requires 1 <= c < |ls| && w != FENCE && SplitOnce(w) == Some(Field(key, value))
    requires forall k :: 1 <= k < c ==> ls[k] != FENCE && !KeyIs(ls[k], key)
    ensures LookupLines((ls[..c] + [w] + ls[c..])[1..], key) == Some(value)
  {
    hide KeyIs, SplitOnce, LookupLines;
    var rest := (ls[..c] + [w] + ls[c..])[1..];
    assert forall k :: 0 <= k < c - 1 ==> rest[k] == ls[k + 1];
    assert rest[c - 1] == w;
    LookupSkip(rest, c - 1, key);
    LookupFirst(rest[c - 1..], key, value);
  }

  lemma InsertedIsSkipped(ls: seq<string>, c: nat, w: string, other: string)
    requires 1 <= c < |ls| && w != FENCE && !KeyIs(w, other)
    ensures LookupLines((ls[..c] + [w] + ls[c..])[1..], other) == LookupLines(ls[1..], other)
  {
    hide KeyIs, SplitOnce, LookupLines;
    LookupInsert(ls[1..], c - 1, w, other);
    assert (ls[..c] + [w] + ls[c..])[1..] == ls[1..][..c - 1] + [w] + ls[1..][c - 1..];
  }

  lemma InsertThenGet(content: string, key: string, value: string)
    requires PlainKey(key) && NewlineFree(key)
    requires Closed(SplitInclusive(content)) && !HasKey(SplitInclusive(content), key)
    ensures UpsertField(content, key, value).Some?
    ensures Get(UpsertField(content, key, value).value, key)
         == if Visible(Lines(content)) then Some(FmValue(value)) else None
  {
    hide PlainKey, Lines, FmValue, KeyIs, Written, LookupLines, UpsertField, SplitInclusive, Closed, SplitOnce, HasKey;
    var ls, c := InsertLines(content, key, value);
    GetLines(UpsertField(content, key, value).value, key);
    WrittenKey(key, value);
    InsertedIsFound(ls, c, Written(key, value), key, FmValue(value));
  }

  lemma UpsertKeepsOtherKeys(content: string, key: string, value: string, other: string)
    requires PlainKey(key) && NewlineFree(key) && other != key && UpsertField(content, key, value).Some?
    ensures Get(UpsertField(content, key, value).value, other) == Get(content, other)
  {
    hide PlainKey, Lines, FmValue, KeyIs, Written, LookupLines, FieldLine, SplitInclusive, Closed, Concat;
    UpsertUnterminated(content, key, value);
    if HasKey(SplitInclusive(content), key) {
      SetKeepsOtherKeys(content, key, value, other);
    } else if Closed(SplitInclusive(content)) {
      InsertKeepsOtherKeys(content, key, value, other);
    }
  }

  lemma InsertKeepsOtherKeys(content: string, key: string, value: string, other: string)
    requires PlainKey(key) && NewlineFree(key) && other != key
    requires Closed(SplitInclusive(content)) && !HasKey(SplitInclusive(content), key)
    ensures UpsertField(content, key, value).Some?
    ensures Get(UpsertField(content, key, value).value, other) == Get(content, other)
  {
    hide PlainKey, Lines, FmValue, Written, LookupLines, UpsertField, SplitInclusive, Closed, SplitOnce, HasKey;
    var ls, c := InsertLines(content, key, value);
    var w := Written(key, value);
    GetLines(UpsertField(content, key, value).value, other);
    GetLines(content, other);
    WrittenKey(key, value);
    InsertedIsSkipped(ls, c, w, other);
  }
}
