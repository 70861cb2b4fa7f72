/** Briefs with a front-matter block in front: printing the block and reading its fields back. */
module BriefMetadata {
  import opened Text
  import opened Brief
  import opened BriefRoundTrip
  import opened AmendmentFile
  import opened FrontMatter
  import opened FrontMatterLaws

  datatype BriefMeta = BriefMeta(
    id: string, state: string, started: string, parent: string,
    shortLabel: Option<string>, worktree: Option<string>, branch: Option<string>)

  function ToolsField(tools: seq<string>): string {
    if tools == [] then "(all)" else FmValue(Join(tools, ", "))
  }

  function OptionalField(key: string, value: Option<string>): seq<Field> {
    if value.Some? then [Field(key, FmValue(value.value))] else []
  }

  /** A blank label is not written. */
  function ShownLabel(meta: BriefMeta): Option<string> {
    if meta.shortLabel.Some? && Trim(meta.shortLabel.value) == "" then None else meta.shortLabel
  }

  function BaseFields(spec: BriefSpec, meta: BriefMeta): seq<Field> {
    [Field("id", FmValue(meta.id)),
     Field("role", FmValue(OrElse(spec.role, "(default)"))),
     Field("model", FmValue(OrElse(spec.model, "(inherit)"))),
     Field("tools", ToolsField(spec.tools)),
     Field(STATE, FmValue(meta.state)),
     Field("started", FmValue(meta.started)),
     Field("parent", FmValue(meta.parent))]
  }

  /** The fields a rendered brief carries, in order. */
  function Fields(spec: BriefSpec, meta: BriefMeta): seq<Field> {
    BaseFields(spec, meta)
    + OptionalField("label", ShownLabel(meta))
    + OptionalField("worktree", meta.worktree)
    + OptionalField("branch", meta.branch)
  }

  function FieldText(f: Field): string { f.key + SEP + f.value }

  function FieldTexts(fs: seq<Field>): (r: seq<string>)
    ensures |r| == |fs|
  {
    seq(|fs|, i requires 0 <= i < |fs| => FieldText(fs[i]))
  }

  function MetaLines(spec: BriefSpec, meta: BriefMeta): seq<string> {
    [FENCE] + FieldTexts(Fields(spec, meta)) + [FENCE] + [""] + BriefLines(spec)
  }

  method RenderBriefWithMeta(spec: BriefSpec, meta: BriefMeta) returns (fm: string)
    ensures fm == Unlines(MetaLines(spec, meta))
  {
    hide FmValue, Unlines, BriefLines, FieldTexts, Trim, Join, BaseFields;
    ghost var fs: seq<Field>;
    fm, fs := AddBaseFields(spec, meta);
    if meta.shortLabel.Some? {
      if Trim(meta.shortLabel.value) != "" {
        fm, fs := AddField(fm, fs, "label", FmValue(meta.shortLabel.value));
      }
    }
    assert fs == BaseFields(spec, meta) + OptionalField("label", ShownLabel(meta));
    fm, fs := AddOptionalField(fm, fs, "worktree", meta.worktree);
    fm, fs := AddOptionalField(fm, fs, "branch", meta.branch);
    var body := RenderBrief(spec);
    BlockEnd([FENCE] + FieldTexts(fs), BriefLines(spec));
    fm := fm + "---\n\n" + body;
  }

  method AddBaseFields(spec: BriefSpec, meta: BriefMeta) returns (fm: string, ghost fs: seq<Field>)
    ensures fs == BaseFields(spec, meta) && fm == Unlines([FENCE] + FieldTexts(fs))
  {
    hide FmValue, Unlines, FieldTexts, Join;
    var role := FmValue(OrElse(spec.role, "(default)"));
    var model := FmValue(OrElse(spec.model, "(inherit)"));
    var tools := if spec.tools == [] then "(all)" else FmValue(Join(spec.tools, ", "));
    fm, fs := "---\n", [];
    BlockStart();
    fm, fs := AddField(fm, fs, "id", FmValue(meta.id));
    fm, fs := AddField(fm, fs, "role", role);
    fm, fs := AddField(fm, fs, "model", model);
    fm, fs := AddField(fm, fs, "tools", tools);
    fm, fs := AddField(fm, fs, STATE, FmValue(meta.state));
    fm, fs := AddField(fm, fs, "started", FmValue(meta.started));
    fm, fs := AddField(fm, fs, "parent", FmValue(meta.parent));
  }

  method AddOptionalField(fm: string, ghost fs: seq<Field>, key: string, value: Option<string>)
    returns (r: string, ghost rs: seq<Field>)
    requires fm == Unlines([FENCE] + FieldTexts(fs))
    ensures rs == fs + OptionalField(key, value) && r == Unlines([FENCE] + FieldTexts(rs))
  {
    hide FmValue, Unlines, FieldTexts;
    r, rs := fm, fs;
    if value.Some? {
      r, rs := AddField(fm, fs, key, FmValue(value.value));
    }
  }

  method AddField(fm: string, ghost fs: seq<Field>, key: string, value: string)
    returns (r: string, ghost rs: seq<Field>)
    requires fm == Unlines([FENCE] + FieldTexts(fs))
    ensures rs == fs + [Field(key, value)] && r == Unlines([FENCE] + FieldTexts(rs))
  {
    hide Unlines;
    r := fm + (key + SEP + value + "\n");
    rs := fs + [Field(key, value)];
    UnlinesSnoc([FENCE] + FieldTexts(fs), key + SEP + value, key + SEP + value + "\n");
    assert [FENCE] + FieldTexts(rs) == [FENCE] + FieldTexts(fs) + [key + SEP + value];
  }

  lemma BlockStart()
    ensures "---\n" == Unlines([FENCE] + FieldTexts([]))
  {
    UnlinesOne(FENCE);
    assert [FENCE] + FieldTexts([]) == [FENCE];
  }

  lemma BlockEnd(ls: seq<string>, body: seq<string>)
    ensures Unlines(ls + [FENCE] + [""] + body) == Unlines(ls) + "---\n\n" + Unlines(body)
  {
    hide Unlines;
    UnlinesSnoc(ls, FENCE, "---\n");
    UnlinesSnoc(ls + [FENCE], "", "\n");
    UnlinesAppend(ls + [FENCE] + [""], body);
    assert "---\n\n" == "---\n" + "\n";
  }

  // ---------- every field reads back ----------

  predicate PlainField(f: Field) {
    PlainKey(f.key) && NewlineFree(FieldText(f)) && Inert(FieldText(f))
    && FieldText(f) != FENCE && StripCr(FieldText(f)) == FieldText(f)
  }

  predicate PlainFields(fs: seq<Field>) {
    forall i :: 0 <= i < |fs| ==> PlainField(fs[i])
  }

  predicate ProperValue(v: string) {
    NewlineFree(v) && v != "" && !IsEol(v[|v| - 1])
  }

  lemma FieldIsPlain(f: Field)
    requires LowerKey(f.key) && ProperValue(f.value)
    ensures PlainField(f)
  {
    hide PlainKey, IsMarkerLine;
    LowerKeyPlain(f.key);
    var l := FieldText(f);
    assert l[0] == f.key[0] && l[|l| - 1] == f.value[|f.value| - 1];
    PlainInert(l);
    FenceHasNoKey(f.key);
    PrefixOfConcat(f.key + SEP, f.value);
  }

  lemma FieldsPlain(spec: BriefSpec, meta: BriefMeta)
    ensures PlainFields(Fields(spec, meta))
    ensures forall i, j :: 0 <= i < j < |Fields(spec, meta)| ==> Fields(spec, meta)[i].key != Fields(spec, meta)[j].key
  {
    hide PlainField, Fields;
    var fs := Fields(spec, meta);
    FieldKeysDistinct(spec, meta);
    forall i | 0 <= i < |fs| ensures PlainField(fs[i]) {
      ProperFields(spec, meta, i);
      FieldIsPlain(fs[i]);
    }
  }

  lemma FieldKeysDistinct(spec: BriefSpec, meta: BriefMeta)
    ensures forall i, j :: 0 <= i < j < |Fields(spec, meta)| ==> Fields(spec, meta)[i].key != Fields(spec, meta)[j].key
  {
    hide BaseFields, ShownLabel, FmValue;
    var base, fs := BaseFields(spec, meta), Fields(spec, meta);
    BaseKeysDistinct(spec, meta);
    OtherKeys();
    assert forall i :: 0 <= i < |base| ==> fs[i] == base[i];
    assert forall i :: |base| <= i < |fs| ==> fs[i].key == "label" || fs[i].key == "worktree" || fs[i].key == "branch";
  }

  lemma BaseKeysDistinct(spec: BriefSpec, meta: BriefMeta)
    ensures var base := BaseFields(spec, meta);
            && (forall i, j :: 0 <= i < j < |base| ==> base[i].key != base[j].key)
            && forall i :: 0 <= i < |base| ==> base[i].key !in ["label", "worktree", "branch"]
  {
    hide FmValue, ToolsField;
  }

  lemma OtherKeys()
    ensures "label" != "worktree" && "label" != "branch" && "worktree" != "branch"
  {
  }

  lemma ProperFields(spec: BriefSpec, meta: BriefMeta, i: nat)
    requires i < |Fields(spec, meta)|
    ensures LowerKey(Fields(spec, meta)[i].key) && ProperValue(Fields(spec, meta)[i].value)
  {
    hide FmValue, Trim, Join, ProperValue;
    forall s ensures ProperValue(FmValue(s)) { StoredIsProper(s); }
    ToolsFieldIsProper(spec.tools);
  }

  lemma ToolsFieldIsProper(tools: seq<string>)
    ensures ProperValue(ToolsField(tools))
  {
    hide FmValue, Join;
    if tools != [] { StoredIsProper(Join(tools, ", ")); }
  }

  lemma StoredIsProper(s: string)
    ensures ProperValue(FmValue(s))
  {
    hide FmValue;
    FmValueOneLine(s);
  }

  lemma {:induction false} PairsOfFields(fs: seq<Field>, rest: seq<string>)
    requires PlainFields(fs)
    ensures Pairs(FieldTexts(fs) + [FENCE] + rest) == fs
  {
    hide SplitOnce, PlainKey, Inert, StripCr;
    var ls := FieldTexts(fs) + [FENCE] + rest;
    if fs == [] {
      assert ls[0] == FENCE;
    } else {
      var f := fs[0];
      assert ls[0] == FieldText(f);
      KeyedField(f);
      PairsOfFields(fs[1..], rest);
      assert ls[1..] == FieldTexts(fs[1..]) + [FENCE] + rest;
    }
  }

  lemma KeyedField(f: Field)
    requires PlainKey(f.key)
    ensures SplitOnce(FieldText(f)) == Some(f)
  {
    hide Find, SplitOnce;
    PrefixOfConcat(f.key + SEP, f.value);
    KeyedLine(f.key, FieldText(f));
    assert FieldText(f)[|f.key| + 2..] == f.value;
  }

  /** The rendered block reads back as its fields, whatever its texts say. */
  lemma RenderedFieldsReadBack(spec: BriefSpec, meta: BriefMeta)
    ensures FrontMatterOf(Unlines(MetaLines(spec, meta))) == Fields(spec, meta)
  {
    hide Fields, BriefLines, Unlines, PlainField, Pairs, StripCrs, Lines, FieldTexts, IsHead;
    var fs, ls := Fields(spec, meta), MetaLines(spec, meta);
    MetaIsHead(spec, meta);
    HeadLinesFree(ls);
    LinesOfUnlines(ls);
    FieldsPlain(spec, meta);
    var rest := [""] + BriefLines(spec);
    assert ls == [FENCE] + (FieldTexts(fs) + [FENCE] + rest);
    BlockStrips(fs, rest);
    assert ([FENCE] + (FieldTexts(fs) + [FENCE] + StripCrs(rest)))[1..] == FieldTexts(fs) + [FENCE] + StripCrs(rest);
    PairsOfFields(fs, StripCrs(rest));
  }

  lemma HeadLinesFree(ls: seq<string>)
    requires IsHead(ls)
    ensures NewlineFreeLines(ls)
  {
  }

  lemma BlockStrips(fs: seq<Field>, rest: seq<string>)
    requires PlainFields(fs)
    ensures StripCrs([FENCE] + (FieldTexts(fs) + [FENCE] + rest)) ==
            [FENCE] + (FieldTexts(fs) + [FENCE] + StripCrs(rest))
  {
    hide PlainField, FieldText;
    assert StripCrs([FENCE]) == [FENCE];
    assert StripCrs(FieldTexts(fs)) == FieldTexts(fs) by {
      forall i | 0 <= i < |fs| ensures StripCr(FieldTexts(fs)[i]) == FieldTexts(fs)[i] { FieldKeepsCr(fs[i]); }
    }
    StripCrsConcat([FENCE], FieldTexts(fs) + [FENCE] + rest);
    StripCrsConcat(FieldTexts(fs) + [FENCE], rest);
    StripCrsConcat(FieldTexts(fs), [FENCE]);
  }

  lemma FieldKeepsCr(f: Field)
    requires PlainField(f)
    ensures StripCr(FieldText(f)) == FieldText(f)
  {
  }

  lemma {:induction false} LookupAt(fs: seq<Field>, i: nat)
    requires i < |fs| && forall k :: 0 <= k < i ==> fs[k].key != fs[i].key
    ensures Lookup(fs, fs[i].key) == Some(fs[i].value)
  {
    if i > 0 { LookupAt(fs[1..], i - 1); }
  }

  lemma {:induction false} LookupNone(fs: seq<Field>, key: string)
    requires forall k :: 0 <= k < |fs| ==> fs[k].key != key
    ensures Lookup(fs, key) == None
  {
    if fs != [] { LookupNone(fs[1..], key); }
  }

  /** Each field of a rendered brief, and nothing else, is found under its key. */
  lemma RenderedGet(spec: BriefSpec, meta: BriefMeta, key: string)
    ensures var text, fs := Unlines(MetaLines(spec, meta)), Fields(spec, meta);
            && (forall i :: 0 <= i < |fs| && fs[i].key == key ==> Get(text, key) == Some(fs[i].value))
            && ((forall i :: 0 <= i < |fs| ==> fs[i].key != key) ==> Get(text, key) == None)
  {
    hide Fields, MetaLines, Unlines, FrontMatterOf;
    RenderedFieldsReadBack(spec, meta);
    FieldsPlain(spec, meta);
    var fs := Fields(spec, meta);
    forall i | 0 <= i < |fs| && fs[i].key == key ensures Lookup(fs, key) == Some(fs[i].value) { LookupAt(fs, i); }
    if forall i :: 0 <= i < |fs| ==> fs[i].key != key { LookupNone(fs, key); }
  }

  /** Each key of a rendered brief gives the value it is named after. */
  lemma RenderedSays(spec: BriefSpec, meta: BriefMeta)
    ensures var text := Unlines(MetaLines(spec, meta));
            && Get(text, "id") == Some(FmValue(meta.id)) && Get(text, "state") == Some(FmValue(meta.state))
            && Get(text, "role") == Some(FmValue(if spec.role.Some? then spec.role.value else "(default)"))
            && Get(text, "model") == Some(FmValue(if spec.model.Some? then spec.model.value else "(inherit)"))
            && Get(text, "tools") == Some(if spec.tools == [] then "(all)" else FmValue(Join(spec.tools, ", ")))
            && Get(text, "started") == Some(FmValue(meta.started)) && Get(text, "parent") == Some(FmValue(meta.parent))
  {
    hide FmValue, Get, Unlines, MetaLines, Trim, Join;
    var fs := Fields(spec, meta);
    RenderedGet(spec, meta, fs[0].key);
    RenderedGet(spec, meta, fs[1].key);
    RenderedGet(spec, meta, fs[2].key);
    RenderedGet(spec, meta, fs[3].key);
    RenderedGet(spec, meta, fs[4].key);
    RenderedGet(spec, meta, fs[5].key);
    RenderedGet(spec, meta, fs[6].key);
  }

  /** The block opens with a fence line, and its first line is the id behind its key. */
  lemma RenderedOpens(spec: BriefSpec, meta: BriefMeta)
    ensures "---\nid: " + FmValue(meta.id) + "\n" <= Unlines(MetaLines(spec, meta))
  {
    hide FmValue, BriefLines, Fields, Unlines;
    var ls, l := MetaLines(spec, meta), "id: " + FmValue(meta.id);
    FirstField(spec, meta);
    assert ls == [FENCE] + ([l] + ls[2..]);
    UnlinesCons(FENCE, [l] + ls[2..]);
    UnlinesCons(l, ls[2..]);
    assert FENCE + "\n" + (l + "\n" + Unlines(ls[2..])) == "---\n" + l + "\n" + Unlines(ls[2..]);
  }

  lemma FirstField(spec: BriefSpec, meta: BriefMeta)
    ensures |MetaLines(spec, meta)| > 2 && MetaLines(spec, meta)[0] == FENCE
    ensures MetaLines(spec, meta)[1] == "id: " + FmValue(meta.id)
  {
    hide FmValue, BriefLines;
    assert MetaLines(spec, meta)[1] == FieldText(Fields(spec, meta)[0]);
  }

  function Stored(value: Option<string>): Option<string> {
    if value.Some? then Some(FmValue(value.value)) else None
  }

  /** The optional keys: there exactly when given, and a label only when it is not blank. */
  lemma RenderedMaySay(spec: BriefSpec, meta: BriefMeta)
    ensures var text := Unlines(MetaLines(spec, meta));
            && Get(text, "worktree") == Stored(meta.worktree) && Get(text, "branch") == Stored(meta.branch)
            && Get(text, "label") ==
               (if meta.shortLabel.Some? && Blank(meta.shortLabel.value) then None else Stored(meta.shortLabel))
  {
    hide FmValue, Get, Unlines, MetaLines, Trim, Join, Blank;
    RenderedGet(spec, meta, "label");
    RenderedGet(spec, meta, "worktree");
    RenderedGet(spec, meta, "branch");
    if meta.shortLabel.Some? { BlankTrims(meta.shortLabel.value); }
    var fs := Fields(spec, meta);
    var n := |OptionalField("label", ShownLabel(meta))|;
    assert n == 1 ==> fs[7].key == "label";
    assert meta.worktree.Some? ==> fs[7 + n].key == "worktree";
    var m := |OptionalField("worktree", meta.worktree)|;
    assert meta.branch.Some? ==> fs[7 + n + m].key == "branch";
  }

  lemma BlankTrims(s: string)
    ensures Trim(s) == "" <==> Blank(s)
  {
    hide IsWhitespace;
    if Blank(s) {
      assert s + "" + "" == s;
      TrimUnique(s, "", "");
    }
    var w, v := TrimSplit(s);
    BlankConcat(w, v);
    assert w + Trim(s) + v == if Trim(s) == "" then w + v else s;
  }

  // ---------- the block cannot forge a marker ----------

  lemma FieldTextsInert(fs: seq<Field>)
    requires PlainFields(fs)
    ensures AllInert(FieldTexts(fs))
  {
    hide Inert, PlainKey, StripCr;
  }

  lemma MetaIsHead(spec: BriefSpec, meta: BriefMeta)
    ensures IsHead(MetaLines(spec, meta))
  {
    hide AllInert, Fields, BriefLines, IsHead, FieldTexts, PlainFields;
    FieldsPlain(spec, meta);
    FieldTextsInert(Fields(spec, meta));
    OneInert(FENCE);
    BlankInert();
    BriefIsHead(spec);
    var body := BriefLines(spec);
    HeadEnds(body);
    var n := |body| - 1;
    var front := [FENCE] + FieldTexts(Fields(spec, meta));
    InertConcat([FENCE], FieldTexts(Fields(spec, meta)));
    InertConcat(front, [FENCE]);
    InertConcat(front + [FENCE], [""]);
    InertConcat(front + [FENCE] + [""], body[..n]);
    HeadFromInert(front + [FENCE] + [""] + body[..n]);
    assert MetaLines(spec, meta) == front + [FENCE] + [""] + body[..n] + [AMENDMENTS_MARKER];
  }

  lemma HeadEnds(ls: seq<string>)
    requires IsHead(ls)
    ensures ls != []
  {
  }
}
