/** The `---` block of `key: value` lines in front of a brief: reading, setting and inserting fields. */
module FrontMatter {
  import opened Text
  import opened Brief

  const FENCE: string := "---"
  const SEP: string := ": "

  /** The field that says how far an agent has come. */
  const STATE: string := "state"

  // ---------- values ----------

  /** A value collapsed to one line, capped at 120 characters, never empty. */
  function FmValue(s: string): string {
    var collapsed := Collapse(s);
    if collapsed == "" then "(none)"
    else if |collapsed| > 120 then collapsed[..120] + "\U{2026}"
    else collapsed
  }

  lemma FmValueTidy(s: string)
    ensures Tidy(FmValue(s)) && FmValue(s) != ""
  {
    hide IsWhitespace;
    CollapseTidy(s);
    var c := Collapse(s);
    if c == "" {
      NoneTidy();
    } else if |c| > 120 {
      EllipsisSolid();
      var v := c[..120] + "\U{2026}";
      assert forall i :: 0 <= i < 120 ==> v[i] == c[i];
      assert v[120] == '\U{2026}';
    }
  }

  lemma NoneTidy()
    ensures Tidy("(none)")
  {
  }

  lemma EllipsisSolid()
    ensures !IsWhitespace('\U{2026}')
  {
  }

  /** Storing a stored value changes nothing. */
  lemma FmValueIdempotent(s: string)
    ensures FmValue(FmValue(s)) == FmValue(s)
  {
    FmValueTidy(s);
    TidyFixed(FmValue(s));
    var c := Collapse(s);
    assert |c| > 120 ==> (c[..120] + "\U{2026}")[..120] == c[..120];
  }

  /** Exactly these texts are stored as they are: tidy, and short or already cut. */
  lemma StoredAsItIsExactly(s: string)
    ensures FmValue(s) == s <==>
            Tidy(s) && s != "" && (|s| <= 120 || (|s| == 121 && s[120] == '\U{2026}'))
  {
    hide IsWhitespace;
    FmValueTidy(s);
    if Tidy(s) {
      TidyFixed(s);
      assert |s| == 121 ==> s == s[..120] + [s[120]];
    }
  }

  /** A text of at most 120 characters, spaces single, keeps its words, and a longer one their beginning. */
  lemma FmValueKeepsWords(s: string)
    ensures Words(s) == [] ==> FmValue(s) == "(none)"
    ensures Words(s) != [] && |Collapse(s)| <= 120 ==> Words(FmValue(s)) == Words(s)
    ensures |Collapse(s)| > 120 ==> FmValue(s)[..120] <= Join(Words(s), " ") && |FmValue(s)| == 121
  {
    hide Words, IsWhitespace;
    WordsAreWords(s);
    WordsOfJoin(Words(s));
    if Words(s) != [] { JoinedWordsTidy(Words(s)); }
    var c := Collapse(s);
    assert |c| > 120 ==> (c[..120] + "\U{2026}")[..120] == c[..120];
  }

  lemma FmValueOneLine(s: string)
    ensures var v := FmValue(s);
            NewlineFree(v) && v != "" && !IsEol(v[|v| - 1])
  {
    hide IsWhitespace, FmValue;
    FmValueTidy(s);
    var v := FmValue(s);
    TidySingleLine(v);
    SpaceIsWhitespace();
  }

  // ---------- reading ----------

  datatype Field = Field(key: string, value: string)

  /** `split_once(": ")` */
  function SplitOnce(line: string): Option<Field> {
    var i := Find(line, SEP);
    if i < |line| then Some(Field(line[..i], line[i + 2..])) else None
  }

  function Pairs(lines: seq<string>): seq<Field> {
    if lines == [] || lines[0] == FENCE then []
    else
      var kv := SplitOnce(lines[0]);
      (if kv.Some? then [kv.value] else []) + Pairs(lines[1..])
  }

  /** The reader sees a block only when the first line is exactly the fence. */
  predicate Visible(lines: seq<string>) {
    lines != [] && lines[0] == FENCE
  }

  function FrontMatterOf(content: string): seq<Field> {
    var lines := Lines(content);
    if Visible(lines) then Pairs(lines[1..]) else []
  }

  lemma PairsStep(lines: seq<string>, i: nat)
    requires i < |lines|
    ensures Pairs(lines[i..]) == if lines[i] == FENCE then [] else
              (if SplitOnce(lines[i]).Some? then [SplitOnce(lines[i]).value] else []) + Pairs(lines[i + 1..])
  {
    assert lines[i..][1..] == lines[i + 1..];
  }

  method ParseFrontMatter(content: string) returns (out: seq<Field>)
    ensures out == FrontMatterOf(content)
  {
    hide SplitOnce, Lines, Pairs, Find;
    var lines := Lines(content);
    if lines == [] || lines[0] != FENCE {
      return [];
    }
    out := [];
    var i := 1;
    while i < |lines|
      invariant 1 <= i <= |lines|
      invariant out + Pairs(lines[i..]) == Pairs(lines[1..])
    {
      PairsStep(lines, i);
      if lines[i] == FENCE {
        return;
      }
      var kv := SplitOnce(lines[i]);
      ghost var pair, rest := if kv.Some? then [kv.value] else [], Pairs(lines[i + 1..]);
      assert out + pair + rest == out + (pair + rest) && out + [] == out;
      if kv.Some? {
        out := out + [kv.value];
      }
      i := i + 1;
    }
    NoPairs();
    assert lines[i..] == [];
  }

  lemma NoPairs()
    ensures Pairs([]) == []
  {
  }

  function Lookup(fs: seq<Field>, key: string): Option<string> {
    if fs == [] then None
    else if fs[0].key == key then Some(fs[0].value)
    else Lookup(fs[1..], key)
  }

  /** `front_matter_get` */
  function Get(content: string, key: string): Option<string> {
    Lookup(FrontMatterOf(content), key)
  }

  // ---------- writing ----------

  predicate IsFence(piece: string) { TrimEol(piece) == FENCE }

  predicate HasField(piece: string, key: string) { StartsWith(TrimEol(piece), key + SEP) }

  function Ending(piece: string): string {
    if |piece| >= 2 && piece[|piece| - 2..] == "\r\n" then "\r\n"
    else if EndsLine(piece) then "\n" else ""
  }

  function FieldLine(key: string, value: string, ending: string): string {
    key + SEP + FmValue(value) + ending
  }

  /** The first fence from position `i` on. */
  function FenceFrom(ps: seq<string>, i: nat): (r: nat)
    requires i <= |ps|
    ensures i <= r <= |ps| && (r < |ps| ==> IsFence(ps[r]))
    ensures forall k :: i <= k < r ==> !IsFence(ps[k])
    decreases |ps| - i
  {
    if i == |ps| || IsFence(ps[i]) then i else FenceFrom(ps, i + 1)
  }

  /** The first line for `key` from position `i` on. */
  function FieldFrom(ps: seq<string>, i: nat, key: string): (r: nat)
    requires i <= |ps|
    ensures i <= r <= |ps| && (r < |ps| ==> HasField(ps[r], key))
    ensures forall k :: i <= k < r ==> !HasField(ps[k], key)
    decreases |ps| - i
  {
    if i == |ps| || HasField(ps[i], key) then i else FieldFrom(ps, i + 1, key)
  }

  predicate Opened(ps: seq<string>) { ps != [] && IsFence(ps[0]) }

  predicate Closed(ps: seq<string>) { Opened(ps) && FenceFrom(ps, 1) < |ps| }

  predicate HasKey(ps: seq<string>, key: string) {
    Closed(ps) && FieldFrom(ps, 1, key) < FenceFrom(ps, 1)
  }

  /** The block with the first line for `key` replaced. */
  function SetPieces(ps: seq<string>, key: string, value: string): Option<seq<string>> {
    if HasKey(ps, key) then
      var f := FieldFrom(ps, 1, key);
      Some(ps[f := FieldLine(key, value, Ending(ps[f]))])
    else None
  }

  /** `set_front_matter_field`: `None` without a closed block that has the key. */
  function SetField(content: string, key: string, value: string): Option<string> {
    var r := SetPieces(SplitInclusive(content), key, value);
    if r.Some? then Some(Concat(r.value)) else None
  }

  /** The block with `key` set, or inserted before the closing fence; an unterminated block stays as it is. */
  function UpsertPieces(ps: seq<string>, key: string, value: string): Option<seq<string>> {
    if HasKey(ps, key) then SetPieces(ps, key, value)
    else if !Opened(ps) then None
    else
      var c := FenceFrom(ps, 1);
      if c < |ps| then Some(ps[..c] + [FieldLine(key, value, "\n")] + ps[c..]) else Some(ps)
  }

  function UpsertField(content: string, key: string, value: string): Option<string> {
    var r := UpsertPieces(SplitInclusive(content), key, value);
    if r.Some? then Some(Concat(r.value)) else None
  }

  lemma FenceFromUnique(ps: seq<string>, i: nat, c: nat)
    requires i <= c <= |ps| && (c < |ps| ==> IsFence(ps[c]))
    requires forall k :: i <= k < c ==> !IsFence(ps[k])
    ensures FenceFrom(ps, i) == c
  {
    hide IsFence;
  }

  lemma FieldFromUnique(ps: seq<string>, i: nat, key: string, f: nat)
    requires i <= f <= |ps| && (f < |ps| ==> HasField(ps[f], key))
    requires forall k :: i <= k < f ==> !HasField(ps[k], key)
    ensures FieldFrom(ps, i, key) == f
  {
    hide HasField;
  }

  method SetFrontMatterField(content: string, key: string, value: string) returns (r: Option<string>)
    ensures r == SetField(content, key, value)
  {
    hide IsFence, HasField, FieldLine, Ending, Concat, SplitInclusive, FenceFrom, FieldFrom;
    var lines := SplitInclusive(content);
    if lines == [] { return None; }
    if !IsFence(lines[0]) { return None; }
    var out := lines[0];
    var found := false;
    ghost var f := 0;
    var i := 1;
    assert lines[..1] == [lines[0]];
    ghost var done := lines[..1];
    ConcatOne(lines[0]);
    while true
      invariant 1 <= i <= |lines|
      invariant forall k :: 1 <= k < i ==> !IsFence(lines[k])
      invariant !found ==> forall k :: 1 <= k < i ==> !HasField(lines[k], key)
      invariant found ==> 1 <= f < i && HasField(lines[f], key) && forall k :: 1 <= k < f ==> !HasField(lines[k], key)
      invariant done == if found then lines[f := FieldLine(key, value, Ending(lines[f]))][..i] else lines[..i]
      invariant out == Concat(done)
      decreases |lines| - i
    {
      if i == |lines| {
        FenceFromUnique(lines, 1, i);
        return None;
      }
      var line := lines[i];
      if IsFence(line) {
        out := out + line;
        break;
      }
      if !found && HasField(line, key) {
        found := true;
        f := i;
        out := out + FieldLine(key, value, Ending(line));
        ConcatSnoc(done, FieldLine(key, value, Ending(line)));
        done := done + [FieldLine(key, value, Ending(line))];
      } else {
        out := out + line;
        ConcatSnoc(done, line);
        done := done + [line];
      }
      i := i + 1;
    }
    FenceFromUnique(lines, 1, i);
    if !found {
      FieldBeyond(lines, key, i);
      return None;
    }
    FieldFromUnique(lines, 1, key, f);
    out := out + Concat(lines[i + 1..]);
    ghost var all := lines[f := FieldLine(key, value, Ending(lines[f]))];
    ConcatSnoc(done, lines[i]);
    ConcatAppend(done + [lines[i]], lines[i + 1..]);
    assert all == (done + [lines[i]]) + lines[i + 1..];
    r := Some(out);
  }

  lemma FieldBeyond(ps: seq<string>, key: string, c: nat)
    requires 1 <= c <= |ps|
    requires forall k :: 1 <= k < c ==> !HasField(ps[k], key)
    ensures FieldFrom(ps, 1, key) >= c
  {
    hide HasField, FieldFrom;
  }

  lemma ConcatOne(p: string)
    ensures Concat([p]) == p
  {
    assert [p][1..] == [];
  }

  lemma ConcatSnoc(ps: seq<string>, p: string)
    ensures Concat(ps + [p]) == Concat(ps) + p
  {
    ConcatAppend(ps, [p]);
    ConcatOne(p);
  }

  method UpsertFrontMatterField(content: string, key: string, value: string) returns (r: Option<string>)
    ensures r == UpsertField(content, key, value)
  {
    hide HasKey, Concat, SplitInclusive;
    var updated := SetFrontMatterField(content, key, value);
    if updated.Some? {
      return updated;
    }
    r := InsertBeforeFence(content, key, value);
  }

  lemma ConcatSlice(ps: seq<string>, b: nat, i: nat)
    requires b <= i < |ps|
    ensures Concat(ps[b..i + 1]) == Concat(ps[b..i]) + ps[i]
  {
    assert ps[b..i + 1] == ps[b..i] + [ps[i]];
    ConcatSnoc(ps[b..i], ps[i]);
  }

  method InsertBeforeFence(content: string, key: string, value: string) returns (r: Option<string>)
    requires !HasKey(SplitInclusive(content), key)
    ensures r == UpsertField(content, key, value)
  {
    hide IsFence, HasKey, FieldLine, Concat, SplitInclusive, FenceFrom, SetPieces;
    var lines := SplitInclusive(content);
    if lines == [] { return None; }
    if !IsFence(lines[0]) { return None; }
    var out := lines[0];
    var inserted := false;
    ghost var c, head := 0, "";
    ghost var newLine := FieldLine(key, value, "\n");
    assert lines[0..1] == [lines[0]];
    ConcatOne(lines[0]);
    for i := 1 to |lines|
      invariant !inserted ==> c == 0 && head == "" && forall k :: 1 <= k < i ==> !IsFence(lines[k])
      invariant inserted ==> 1 <= c < i && IsFence(lines[c]) && forall k :: 1 <= k < c ==> !IsFence(lines[k])
      invariant inserted ==> head == Concat(lines[0..c]) + newLine
      invariant out == head + Concat(lines[c..i])
    {
      var line := lines[i];
      if !inserted && IsFence(line) {
        head := out + newLine;
        c := i;
        ConcatSlice(lines, i, i);
        assert lines[i..i] == [];
        ConcatNone();
        out := out + FieldLine(key, value, "\n");
        out := out + line;
        inserted := true;
      } else {
        out := out + line;
        ConcatSlice(lines, c, i);
      }
    }
    FenceFromUnique(lines, 1, if inserted then c else |lines|);
    assert lines[c..|lines|] == lines[c..] && lines[0..c] == lines[..c];
    if inserted {
      ConcatSnoc(lines[..c], newLine);
      ConcatAppend(lines[..c] + [newLine], lines[c..]);
    } else {
      assert lines[0..] == lines && out == Concat(lines);
    }
    r := Some(out);
  }

  lemma ConcatNone()
    ensures Concat([]) == ""
  {
  }
}
