/** The file that remembers the active session of each directory (src/session.rs). */
module ActiveSession {
  import opened Text

  datatype Split = Split(key: string, value: string)

  /** `split_once('\t')` */
  function SplitTab(l: string): Option<Split> {
    var i := Find(l, "\t");
    if i == |l| then None else Some(Split(l[..i], l[i + 1..]))
  }

  function Kept(ls: seq<string>, cwd: string): seq<string> {
    if ls == [] then [] else (if StartsWith(ls[0], cwd + "\t") then [] else [ls[0]]) + Kept(ls[1..], cwd)
  }

  function LinesOf(file: Option<string>): seq<string> {
    if file.Some? then Lines(file.value) else []
  }

  function LineFor(cwd: string, path: string): string { cwd + "\t" + path }

  /** The text written when the active session of `cwd` is recorded over `file`. */
  function Recorded(file: Option<string>, cwd: string, path: string): string {
    Unlines(Kept(LinesOf(file), cwd) + [LineFor(cwd, path)])
  }

  predicate Keyed(l: string, cwd: string) { SplitTab(l).Some? && SplitTab(l).value.key == cwd }

  /** The value of the first line with this key. */
  function FirstValue(ls: seq<string>, cwd: string): Option<string> {
    if ls == [] then None
    else if Keyed(ls[0], cwd) then Some(SplitTab(ls[0]).value.value)
    else FirstValue(ls[1..], cwd)
  }

  function ActiveIn(file: Option<string>, cwd: string): Option<string> { FirstValue(LinesOf(file), cwd) }

  class SessionsDir {
    var active: Option<string>

    constructor ()
      ensures active == None
    {
      active := None;
    }

    method SetActiveSession(cwd: string, path: string)
      modifies this
      ensures active == Some(Recorded(old(active), cwd, path))
    {
      var lines := Kept(LinesOf(active), cwd);
      lines := lines + [LineFor(cwd, path)];
      JoinUnlines(lines);
      active := Some(Join(lines, "\n") + "\n");
    }

    method ActiveSession(cwd: string) returns (path: Option<string>)
      ensures path == ActiveIn(active, cwd)
    {
      var lines := LinesOf(active);
      for i := 0 to |lines|
        invariant FirstValue(lines, cwd) == FirstValue(lines[i..], cwd)
      {
        var split := SplitTab(lines[i]);
        assert lines[i..][1..] == lines[i + 1..];
        if split.Some? && split.value.key == cwd {
          return Some(split.value.value);
        }
      }
      return None;
    }
  }

  // ---------- keys and prefixes ----------

  lemma KeyedIffPrefixed(l: string, cwd: string)
    requires '\t' !in cwd
    ensures Keyed(l, cwd) <==> StartsWith(l, cwd + "\t")
    ensures Keyed(l, cwd) ==> SplitTab(l).value.value == l[|cwd| + 1..]
  {
    if StartsWith(l, cwd + "\t") {
      assert l[|cwd|] == (cwd + "\t")[|cwd|];
      assert "\t" <= l[|cwd|..];
      forall k | 0 <= k < |cwd| ensures !("\t" <= l[k..]) {
        assert l[k] == (cwd + "\t")[k] == cwd[k];
        assert cwd[k] in cwd;
      }
      FindUnique(l, "\t", |cwd|);
      assert l[..|cwd|] == (cwd + "\t")[..|cwd|] == cwd;
    }
    var i := Find(l, "\t");
    if i < |l| {
      assert l[i..][0] == '\t';
      assert l[..i + 1] == l[..i] + "\t";
    }
  }

  /** A key never holds a tab, and a key of a line never holds a newline. */
  lemma KeysHaveNoTab(l: string, cwd: string)
    requires Keyed(l, cwd)
    ensures '\t' !in cwd && |cwd| < |l| && l == cwd + "\t" + SplitTab(l).value.value
  {
    var i := Find(l, "\t");
    assert "\t" <= l[i..] && l[i..][0] == '\t';
    forall k | 0 <= k < i ensures l[k] != '\t' {
      assert l[k..][0] == l[k];
    }
  }

  lemma LineForIsKeyed(cwd: string, path: string)
    requires '\t' !in cwd
    ensures Keyed(LineFor(cwd, path), cwd) && SplitTab(LineFor(cwd, path)).value.value == path
  {
    var l := LineFor(cwd, path);
    assert l == (cwd + "\t") + path;
    KeyedIffPrefixed(l, cwd);
    assert l[|cwd| + 1..] == path;
  }

  lemma {:induction false} FirstValueConcat(a: seq<string>, b: seq<string>, cwd: string)
    ensures FirstValue(a + b, cwd) ==
            if FirstValue(a, cwd).Some? then FirstValue(a, cwd) else FirstValue(b, cwd)
  {
    if a == [] {
      assert a + b == b;
    } else {
      FirstValueConcat(a[1..], b, cwd);
      assert (a + b)[1..] == a[1..] + b;
    }
  }

  lemma {:induction false} KeptHides(ls: seq<string>, cwd: string, other: string)
    requires '\t' !in cwd
    ensures FirstValue(Kept(ls, cwd), other) == if other == cwd then None else FirstValue(ls, other)
  {
    hide StartsWith, SplitTab;
    if ls != [] {
      KeyedIffPrefixed(ls[0], cwd);
      KeptHides(ls[1..], cwd, other);
      var rest := Kept(ls[1..], cwd);
      assert ([ls[0]] + rest)[1..] == rest;
      assert [] + rest == rest;
    }
  }

  lemma {:induction false} KeptAreLines(ls: seq<string>, cwd: string)
    ensures forall l :: l in Kept(ls, cwd) ==> l in ls
  {
    if ls != [] {
      KeptAreLines(ls[1..], cwd);
    }
  }

  // ---------- one recording ----------

  lemma LineForShape(cwd: string, path: string)
    requires NewlineFree(cwd) && NewlineFree(path)
    ensures NewlineFree(LineFor(cwd, path))
    ensures StripCr(LineFor(cwd, path)) == LineFor(cwd, StripCr(path))
  {
    var l := LineFor(cwd, path);
    if path != "" && path[|path| - 1] == '\r' {
      assert l[|l| - 1] == '\r';
      assert l[..|l| - 1] == LineFor(cwd, path[..|path| - 1]);
    }
  }

  lemma RecordedLines(file: Option<string>, cwd: string, path: string)
    requires NewlineFree(cwd) && NewlineFree(path)
    ensures LinesOf(Some(Recorded(file, cwd, path))) ==
            StripCrs(Kept(LinesOf(file), cwd)) + [LineFor(cwd, StripCr(path))]
  {
    hide StripCr, StripCrs, Lines, Unlines, LineFor, Kept, NewlineFree;
    var kept := Kept(LinesOf(file), cwd);
    var all := kept + [LineFor(cwd, path)];
    KeptNewlineFree(file, cwd);
    LineForShape(cwd, path);
    StripCrsConcat(kept, [LineFor(cwd, path)]);
    assert StripCrs([LineFor(cwd, path)]) == [StripCr(LineFor(cwd, path))] by { StripCrsOne(LineFor(cwd, path)); }
    assert NewlineFreeLines(all);
    LinesOfUnlines(all);
    assert Recorded(file, cwd, path) == Unlines(all);
  }

  lemma KeptNewlineFree(file: Option<string>, cwd: string)
    ensures NewlineFreeLines(Kept(LinesOf(file), cwd))
  {
    hide NewlineFree, Lines, Kept;
    var kept := Kept(LinesOf(file), cwd);
    if file.Some? {
      LinesNewlineFree(file.value);
    }
    KeptAreLines(LinesOf(file), cwd);
    forall i | 0 <= i < |kept| ensures NewlineFree(kept[i]) {
      assert kept[i] in LinesOf(file);
    }
  }

  lemma {:induction false} StripCrsHides(ls: seq<string>, cwd: string)
    requires '\t' !in cwd && forall i :: 0 <= i < |ls| ==> !StartsWith(ls[i], cwd + "\t")
    ensures FirstValue(StripCrs(ls), cwd) == None
  {
    hide SplitTab;
    if ls != [] {
      assert StripCrs(ls)[1..] == StripCrs(ls[1..]);
      KeyedIffPrefixed(StripCr(ls[0]), cwd);
      StripCrsHides(ls[1..], cwd);
    }
  }

  lemma {:induction false} KeptAreOthers(ls: seq<string>, cwd: string)
    ensures forall i :: 0 <= i < |Kept(ls, cwd)| ==> !StartsWith(Kept(ls, cwd)[i], cwd + "\t")
  {
    if ls != [] {
      KeptAreOthers(ls[1..], cwd);
    }
  }

  /** What a lookup says right after a recording, whatever the file held before. */
  lemma LookupAfterSet(file: Option<string>, cwd: string, path: string)
    requires NewlineFree(cwd) && NewlineFree(path) && '\t' !in cwd
    ensures ActiveIn(Some(Recorded(file, cwd, path)), cwd) == Some(StripCr(path))
  {
    hide StripCr, Lines, Unlines, LineFor, Kept, SplitTab, Recorded;
    var kept := Kept(LinesOf(file), cwd);
    RecordedLines(file, cwd, path);
    KeptAreOthers(LinesOf(file), cwd);
    StripCrsHides(kept, cwd);
    FirstValueConcat(StripCrs(kept), [LineFor(cwd, StripCr(path))], cwd);
    LineForIsKeyed(cwd, StripCr(path));
  }

  lemma {:induction false} FoundIsNewlineFree(ls: seq<string>, cwd: string)
    requires NewlineFreeLines(ls) && FirstValue(ls, cwd).Some?
    ensures '\t' !in cwd && NewlineFree(cwd) && NewlineFree(FirstValue(ls, cwd).value)
  {
    hide SplitTab;
    if Keyed(ls[0], cwd) {
      KeysHaveNoTab(ls[0], cwd);
    } else {
      FoundIsNewlineFree(ls[1..], cwd);
    }
  }

  /** The paths and directories the file can remember. */
  predicate Storable(cwd: string, path: string) {
    && NewlineFree(cwd)
    && '\t' !in cwd
    && NewlineFree(path)
    && (path == "" || path[|path| - 1] != '\r')
  }

  /** A recording is found again exactly for those. */
  lemma SetThenLookupExactly(file: Option<string>, cwd: string, path: string)
    ensures ActiveIn(Some(Recorded(file, cwd, path)), cwd) == Some(path) <==> Storable(cwd, path)
  {
    hide Recorded, FirstValue, Lines;
    var found := ActiveIn(Some(Recorded(file, cwd, path)), cwd);
    LinesNewlineFree(Recorded(file, cwd, path));
    if found == Some(path) {
      FoundIsNewlineFree(Lines(Recorded(file, cwd, path)), cwd);
    }
    if NewlineFree(cwd) && NewlineFree(path) && '\t' !in cwd {
      LookupAfterSet(file, cwd, path);
    }
  }

  /** A carriage return at the end of a line belongs to its value. */
  lemma StripKeepsKey(l: string)
    ensures SplitTab(StripCr(l)).Some? <==> SplitTab(l).Some?
    ensures SplitTab(l).Some? ==>
              SplitTab(StripCr(l)) == Some(Split(SplitTab(l).value.key, StripCr(SplitTab(l).value.value)))
  {
    hide SplitTab;
    var s := StripCr(l);
    if s != l {
      assert l == s + "\r";
      SplitBeforeCr(s);
    } else if SplitTab(l).Some? {
      PlainValue(l);
    }
  }

  lemma SplitBeforeCr(s: string)
    ensures SplitTab(s).Some? <==> SplitTab(s + "\r").Some?
    ensures SplitTab(s + "\r").Some? ==>
              && SplitTab(s).value.key == SplitTab(s + "\r").value.key
              && SplitTab(s).value.value == StripCr(SplitTab(s + "\r").value.value)
  {
    hide Find;
    var l := s + "\r";
    var i := Find(l, "\t");
    assert l[|s|..][0] == '\r';
    forall k | 0 <= k < |s| ensures "\t" <= s[k..] <==> "\t" <= l[k..] {
      assert s[k..][0] == l[k..][0];
    }
    var j := Find(s, "\t");
    if i < |l| {
      FindUnique(s, "\t", i);
      var v := s[i + 1..];
      assert l[i + 1..] == v + "\r";
      assert (v + "\r")[..|v|] == v;
      assert l[..i] == s[..i];
    }
  }

  lemma PlainValue(l: string)
    requires StripCr(l) == l && SplitTab(l).Some?
    ensures StripCr(SplitTab(l).value.value) == SplitTab(l).value.value
  {
    hide Find;
    var i := Find(l, "\t");
    var v := l[i + 1..];
    assert v != "" ==> v[|v| - 1] == l[|l| - 1];
  }

  function Stripped(o: Option<string>): Option<string> {
    if o.Some? then Some(StripCr(o.value)) else None
  }

  lemma {:induction false} StripCrsFound(ls: seq<string>, cwd: string)
    ensures FirstValue(StripCrs(ls), cwd) == Stripped(FirstValue(ls, cwd))
  {
    hide StripCr, SplitTab;
    if ls != [] {
      assert StripCrs(ls)[1..] == StripCrs(ls[1..]);
      StripKeepsKey(ls[0]);
      StripCrsFound(ls[1..], cwd);
    }
  }

  /** Another directory keeps its answer, but for a carriage return at its end, which the rewriting takes off. */
  lemma SetThenLookupOther(file: Option<string>, cwd: string, path: string, other: string)
    requires Storable(cwd, path) && other != cwd
    ensures ActiveIn(Some(Recorded(file, cwd, path)), other) == Stripped(ActiveIn(file, other))
  {
    hide Lines, Unlines, LineFor, Kept, SplitTab, Recorded, StripCrs;
    var kept := Kept(LinesOf(file), cwd);
    var line := LineFor(cwd, path);
    RecordedLines(file, cwd, path);
    FirstValueConcat(StripCrs(kept), [line], other);
    StripCrsFound(kept, other);
    LineForIsKeyed(cwd, path);
    KeptHides(LinesOf(file), cwd, other);
  }

  // ---------- whole runs ----------

  datatype SetCall = SetCall(cwd: string, path: string)

  function AfterSets(file: Option<string>, calls: seq<SetCall>): Option<string> {
    if calls == [] then file else
      var last := calls[|calls| - 1];
      Some(Recorded(AfterSets(file, calls[..|calls| - 1]), last.cwd, last.path))
  }

  /** The path of the last call for this directory. */
  function LastPath(calls: seq<SetCall>, cwd: string): Option<string> {
    if calls == [] then None
    else if calls[|calls| - 1].cwd == cwd then Some(calls[|calls| - 1].path)
    else LastPath(calls[..|calls| - 1], cwd)
  }

  predicate AllStorable(calls: seq<SetCall>) {
    forall i :: 0 <= i < |calls| ==> Storable(calls[i].cwd, calls[i].path)
  }

  /** The answer after `n` rewritings of the line that gives it. */
  function StrippedTimes(o: Option<string>, n: nat): Option<string> {
    if n == 0 then o else Stripped(StrippedTimes(o, n - 1))
  }

  /** The file refines a map from directories to paths. */
  lemma {:induction false} LookupIsLastSet(file: Option<string>, calls: seq<SetCall>, cwd: string)
    requires AllStorable(calls)
    ensures ActiveIn(AfterSets(file, calls), cwd) ==
            if LastPath(calls, cwd).Some? then LastPath(calls, cwd) else StrippedTimes(ActiveIn(file, cwd), |calls|)
  {
    hide Lines, Recorded, FirstValue, Storable, StripCr;
    if calls != [] {
      var init := calls[..|calls| - 1];
      var last := calls[|calls| - 1];
      var before := AfterSets(file, init);
      LookupIsLastSet(file, init, cwd);
      SetThenLookupExactly(before, last.cwd, last.path);
      if cwd != last.cwd {
        SetThenLookupOther(before, last.cwd, last.path, cwd);
        LastPathPlain(init, cwd);
      }
    }
  }

  lemma {:induction false} LastPathPlain(calls: seq<SetCall>, cwd: string)
    requires AllStorable(calls)
    ensures Stripped(LastPath(calls, cwd)) == LastPath(calls, cwd)
  {
    if calls != [] { LastPathPlain(calls[..|calls| - 1], cwd); }
  }

  lemma {:induction false} PlainStays(o: Option<string>, n: nat)
    requires Stripped(o) == o
    ensures StrippedTimes(o, n) == o
  {
    if n > 0 { PlainStays(o, n - 1); }
  }

  /** Over a file whose answer for the directory ends in no spare carriage return, the map is exact. */
  lemma PlainFileIsMap(file: Option<string>, calls: seq<SetCall>, cwd: string)
    requires AllStorable(calls) && Stripped(ActiveIn(file, cwd)) == ActiveIn(file, cwd)
    ensures ActiveIn(AfterSets(file, calls), cwd) ==
            if LastPath(calls, cwd).Some? then LastPath(calls, cwd) else ActiveIn(file, cwd)
  {
    hide ActiveIn, AllStorable, StripCr, AfterSets, LastPath;
    LookupIsLastSet(file, calls, cwd);
    PlainStays(ActiveIn(file, cwd), |calls|);
  }

  /** A path that ends in a carriage return comes back without it. */
  lemma ReturnAtEndIsLost(file: Option<string>, cwd: string)
    requires NewlineFree(cwd) && '\t' !in cwd
    ensures ActiveIn(Some(Recorded(file, cwd, "p\r")), cwd) == Some("p")
  {
    hide Recorded, ActiveIn;
    LookupAfterSet(file, cwd, "p\r");
    assert StripCr("p\r") == "p";
  }

  /** A directory with a tab in its name is never found again. */
  lemma TabIsNeverFound(file: Option<string>, path: string)
    ensures ActiveIn(Some(Recorded(file, "a\tb", path)), "a\tb") == None
  {
    hide Recorded, FirstValue, Lines;
    var lines := Lines(Recorded(file, "a\tb", path));
    LinesNewlineFree(Recorded(file, "a\tb", path));
    assert "a\tb"[1] == '\t';
    if FirstValue(lines, "a\tb").Some? { FoundIsNewlineFree(lines, "a\tb"); }
  }

  // ---------- one line per directory ----------

  predicate KeysDistinct(ls: seq<string>) {
    forall i, j :: 0 <= i < j < |ls| && SplitTab(ls[i]).Some? && SplitTab(ls[j]).Some? ==>
      SplitTab(ls[i]).value.key != SplitTab(ls[j]).value.key
  }

  lemma {:induction false} KeptKeepsDistinct(ls: seq<string>, cwd: string)
    requires KeysDistinct(ls)
    ensures KeysDistinct(Kept(ls, cwd))
  {
    hide SplitTab, StartsWith;
    if ls != [] {
      KeptKeepsDistinct(ls[1..], cwd);
      KeptAreLines(ls[1..], cwd);
      var rest := Kept(ls[1..], cwd);
      assert KeysDistinct([ls[0]] + rest) by {
        forall j | 0 <= j < |rest| && SplitTab(ls[0]).Some? && SplitTab(rest[j]).Some?
          ensures SplitTab(ls[0]).value.key != SplitTab(rest[j]).value.key
        {
          assert rest[j] in ls[1..];
          var m :| 0 <= m < |ls[1..]| && ls[1..][m] == rest[j];
          assert ls[m + 1] == rest[j];
        }
      }
      assert [] + rest == rest;
    }
  }

  lemma StripKeepsDistinct(ls: seq<string>)
    requires KeysDistinct(ls)
    ensures KeysDistinct(StripCrs(ls))
  {
    hide StripCr, SplitTab;
    var ms := StripCrs(ls);
    forall i, j | 0 <= i < j < |ms| && SplitTab(ms[i]).Some? && SplitTab(ms[j]).Some?
      ensures SplitTab(ms[i]).value.key != SplitTab(ms[j]).value.key
    {
      StripKeepsKey(ls[i]);
      StripKeepsKey(ls[j]);
    }
  }

  /** However often it is rewritten, the file holds at most one line for a directory. */
  lemma {:induction false} OneLineEach(file: Option<string>, calls: seq<SetCall>)
    requires KeysDistinct(LinesOf(file)) && AllStorable(calls)
    ensures KeysDistinct(LinesOf(AfterSets(file, calls)))
  {
    hide Lines, Recorded, Storable, KeysDistinct;
    if calls != [] {
      var init := calls[..|calls| - 1];
      var last := calls[|calls| - 1];
      OneLineEach(file, init);
      OneLineStep(AfterSets(file, init), last.cwd, last.path);
    }
  }

  lemma OneLineStep(file: Option<string>, cwd: string, path: string)
    requires KeysDistinct(LinesOf(file)) && Storable(cwd, path)
    ensures KeysDistinct(LinesOf(Some(Recorded(file, cwd, path))))
  {
    hide Lines, Unlines, LineFor, SplitTab, Recorded, StartsWith, Kept, StripCr;
    var kept := Kept(LinesOf(file), cwd);
    RecordedLines(file, cwd, path);
    KeptKeepsDistinct(LinesOf(file), cwd);
    StripKeepsDistinct(kept);
    KeptAreOthers(LinesOf(file), cwd);
    LineForIsKeyed(cwd, StripCr(path));
    forall i | 0 <= i < |kept| ensures !Keyed(StripCrs(kept)[i], cwd) {
      KeyedIffPrefixed(kept[i], cwd);
      StripKeepsKey(kept[i]);
    }
  }
}
