/** The watcher that delivers new amendments of a brief to a running agent (src/mode/brief_watch.rs). */
module BriefWatch {
  import opened Text
  import opened Sequences
  import opened Brief
  import opened BriefRoundTrip
  import opened AmendmentText
  import opened AmendmentFile
  import opened TornReads
  import opened AmendmentNumbers

  predicate NumberLe(a: Amendment, b: Amendment) { a.number <= b.number }

  /** The amendments sent on: of the sorted ones, those above every number sent before. */
  function Sent(last: u32, items: seq<Amendment>): (r: seq<Amendment>) {
    if items == [] then [] else
      var init := items[..|items| - 1];
      Sent(last, init) + if items[|items| - 1].number > LastAfter(last, init) then [items[|items| - 1]] else []
  }

  /** The highest number sent. */
  function LastAfter(last: u32, items: seq<Amendment>): u32 {
    if items == [] then last else
      var before := LastAfter(last, items[..|items| - 1]);
      if items[|items| - 1].number > before then items[|items| - 1].number else before
  }

  function ItemsOf(content: string): seq<Amendment> { Sort(Amendments(content, false), NumberLe) }

  // ---------- the watcher ----------

  /** One look at the file: its size, and what is read of it; either can fail. */
  datatype Look = Look(size: Option<nat>, content: Option<string>)

  datatype Watch = Watch(last: u32, prevSize: Option<nat>, processedSize: Option<nat>)

  /** What a look gets to read: only when the size has stood still and was not read already. */
  function Reads(w: Watch, l: Look): Option<string> {
    if l.size.Some? && w.prevSize == l.size && w.processedSize != l.size then l.content else None
  }

  function Looked(w: Watch, l: Look): Watch {
    var r := Reads(w, l);
    Watch(if r.Some? then LastAfter(w.last, ItemsOf(r.value)) else w.last, l.size,
          if r.Some? then l.size else w.processedSize)
  }

  class Watcher {
    var last: u32
    var prevSize: Option<nat>
    var processedSize: Option<nat>

    ghost function State(): Watch
      reads this
    {
      Watch(last, prevSize, processedSize)
    }

    constructor (initialLast: u32)
      ensures State() == Watch(initialLast, None, None)
    {
      last, prevSize, processedSize := initialLast, None, None;
    }

    /** One turn of the loop; what it sends. */
    method Tick(l: Look) returns (sent: seq<Amendment>)
      modifies this
      ensures State() == Looked(old(State()), l)
      ensures var r := Reads(old(State()), l);
              sent == if r.Some? then Sent(old(last), ItemsOf(r.value)) else []
    {
      hide Sort, Amendments;
      sent := [];
      if l.size.None? {
        prevSize := None;
        return;
      }
      if prevSize != l.size {
        prevSize := l.size;
        return;
      }
      if processedSize == l.size {
        return;
      }
      if l.content.None? {
        return;
      }
      processedSize := l.size;
      var items := ParseAmendmentsWith(l.content.value, false);
      items := Sort(items, NumberLe);
      for i := 0 to |items|
        invariant State() == Watch(LastAfter(old(last), items[..i]), l.size, l.size)
        invariant sent == Sent(old(last), items[..i])
      {
        assert items[..i + 1][..i] == items[..i];
        if items[i].number <= last {
          continue;
        }
        last := items[i].number;
        sent := sent + [items[i]];
      }
      assert items[..|items|] == items;
    }
  }

  // ---------- whole runs ----------

  function After(w: Watch, looks: seq<Look>): Watch {
    if looks == [] then w else Looked(After(w, looks[..|looks| - 1]), looks[|looks| - 1])
  }

  /** Everything sent in a run. */
  function AllSent(w: Watch, looks: seq<Look>): seq<Amendment> {
    if looks == [] then [] else
      var init := looks[..|looks| - 1];
      var r := Reads(After(w, init), looks[|looks| - 1]);
      AllSent(w, init) + if r.Some? then Sent(After(w, init).last, ItemsOf(r.value)) else []
  }

  /** Numbers that rise from above `low` up to `high`. */
  predicate Rising(ams: seq<Amendment>, low: u32, high: u32) {
    && low <= high
    && (forall i :: 0 <= i < |ams| ==> low < ams[i].number <= high)
    && (forall i, j :: 0 <= i < j < |ams| ==> ams[i].number < ams[j].number)
  }

  lemma {:induction false} SentRises(last: u32, items: seq<Amendment>)
    ensures Rising(Sent(last, items), last, LastAfter(last, items))
  {
    if items != [] { SentRises(last, items[..|items| - 1]); }
  }

  lemma RisingConcat(a: seq<Amendment>, b: seq<Amendment>, low: u32, mid: u32, high: u32)
    requires Rising(a, low, mid) && Rising(b, mid, high)
    ensures Rising(a + b, low, high)
  {
  }

  /** Whatever stands in the file at each look, no number is ever sent twice. */
  lemma {:induction false} NumbersSentOnce(w: Watch, looks: seq<Look>)
    ensures Rising(AllSent(w, looks), w.last, After(w, looks).last)
  {
    hide Rising, Sent, LastAfter, ItemsOf;
    if looks == [] {
      NothingRises(w.last);
    } else {
      var init := looks[..|looks| - 1];
      var before := After(w, init);
      var r := Reads(before, looks[|looks| - 1]);
      NumbersSentOnce(w, init);
      var now := if r.Some? then Sent(before.last, ItemsOf(r.value)) else [];
      if r.Some? { SentRises(before.last, ItemsOf(r.value)); } else { NothingRises(before.last); }
      RisingConcat(AllSent(w, init), now, w.last, before.last, After(w, looks).last);
    }
  }

  lemma NothingRises(last: u32)
    ensures Rising([], last, last)
  {
  }

  // ---------- a brief in which nothing but appends happens ----------

  /** Every look finds some part of the file: the first bytes of what it holds in the end. */
  predicate SeesPrefixes(looks: seq<Look>, file: string) {
    forall i :: 0 <= i < |looks| && looks[i].content.Some? ==> looks[i].content.value <= file
  }

  /** The numbers of the first entries. */
  predicate FirstNumbers(ams: seq<Amendment>, es: seq<Entry>) {
    |ams| <= |es| && forall i :: 0 <= i < |ams| ==> ams[i].number == es[i].number
  }

  lemma PrefixNumbers(head: seq<string>, es: seq<Entry>, content: string)
    requires IsHead(head) && Timed(es) && content <= File(head, es)
    ensures FirstNumbers(Amendments(content, false), es)
  {
    hide IsHead, Timed, File, Amendments, CutAtLine, Recovered;
    TornRead(head, es, |content|);
    assert File(head, es)[..|content|] == content;
  }

  predicate HasNumber(es: seq<Entry>, number: u32) {
    exists p :: 0 <= p < |es| && es[p].number == number
  }

  predicate NumbersAmong(ams: seq<Amendment>, es: seq<Entry>) {
    forall i :: 0 <= i < |ams| ==> HasNumber(es, ams[i].number)
  }

  lemma NumberOrder()
    ensures TotalOrder(NumberLe)
  {
  }

  lemma ItemsAmong(head: seq<string>, es: seq<Entry>, content: string)
    requires IsHead(head) && Timed(es) && content <= File(head, es)
    ensures NumbersAmong(ItemsOf(content), es)
  {
    hide IsHead, Timed, File, Amendments, Sort;
    var ams, items := Amendments(content, false), ItemsOf(content);
    PrefixNumbers(head, es, content);
    NumberOrder();
    SortSorts(ams, NumberLe);
    forall i | 0 <= i < |items| ensures HasNumber(es, items[i].number) {
      assert items[i] in multiset(items);
      var p :| 0 <= p < |ams| && ams[p] == items[i];
      assert es[p].number == items[i].number;
    }
  }

  lemma {:induction false} SentAmong(last: u32, items: seq<Amendment>, es: seq<Entry>)
    requires NumbersAmong(items, es)
    ensures NumbersAmong(Sent(last, items), es)
  {
    hide HasNumber;
    if items != [] { SentAmong(last, items[..|items| - 1], es); }
  }

  lemma {:induction false} AllSentAmong(w: Watch, looks: seq<Look>, head: seq<string>, es: seq<Entry>)
    requires IsHead(head) && Timed(es) && SeesPrefixes(looks, File(head, es))
    ensures NumbersAmong(AllSent(w, looks), es)
  {
    hide IsHead, Timed, File, Sent, LastAfter, ItemsOf, HasNumber;
    if looks != [] {
      var init := looks[..|looks| - 1];
      FewerLooks(looks, File(head, es));
      AllSentAmong(w, init, head, es);
      var before := After(w, init);
      var r := Reads(before, looks[|looks| - 1]);
      if r.Some? {
        ItemsAmong(head, es, r.value);
        SentAmong(before.last, ItemsOf(r.value), es);
      }
    }
  }

  lemma FewerLooks(looks: seq<Look>, file: string)
    requires looks != [] && SeesPrefixes(looks, file)
    ensures SeesPrefixes(looks[..|looks| - 1], file)
    ensures looks[|looks| - 1].content.Some? ==> looks[|looks| - 1].content.value <= file
  {
  }

  // ---------- which looks read ----------

  function Fresh(m: u32): Watch { Watch(m, None, None) }

  /** Look `i` reads: there is a text, the look before saw the same size, and the last look that read did not. */
  predicate ReadsAt(looks: seq<Look>, i: nat)
    requires i < |looks|
    decreases i, 1
  {
    && looks[i].content.Some? && looks[i].size.Some?
    && i > 0 && looks[i - 1].size == looks[i].size && LastReadSize(looks, i) != looks[i].size
  }

  /** The size seen by the last look before `i` that read. */
  function LastReadSize(looks: seq<Look>, i: nat): Option<nat>
    requires i <= |looks|
    decreases i, 0
  {
    if i == 0 then None else if ReadsAt(looks, i - 1) then looks[i - 1].size else LastReadSize(looks, i - 1)
  }

  lemma {:induction false} WatchIsHistory(m: u32, looks: seq<Look>, i: nat)
    requires i <= |looks|
    ensures var w := After(Fresh(m), looks[..i]);
            && w.prevSize == (if i == 0 then None else looks[i - 1].size)
            && w.processedSize == LastReadSize(looks, i)
  {
    hide LastAfter, ItemsOf;
    if i > 0 {
      WatchIsHistory(m, looks, i - 1);
      assert looks[..i][..i - 1] == looks[..i - 1];
    }
  }

  /** The watcher reads a file only when its size stood still between two looks, and no size twice running. */
  lemma ReadsExactly(m: u32, looks: seq<Look>, i: nat)
    requires i < |looks|
    ensures Reads(After(Fresh(m), looks[..i]), looks[i]) == if ReadsAt(looks, i) then looks[i].content else None
  {
    hide After, LastReadSize;
    WatchIsHistory(m, looks, i);
  }

  // ---------- one look ----------

  predicate Carries(ams: seq<Amendment>, number: u32) {
    exists i :: 0 <= i < |ams| && ams[i].number == number
  }

  predicate Ascending(ams: seq<Amendment>) {
    forall i, j :: 0 <= i < j < |ams| ==> ams[i].number <= ams[j].number
  }

  lemma {:induction false} LastOfAscending(last: u32, items: seq<Amendment>)
    requires Ascending(items)
    ensures LastAfter(last, items) ==
            if items == [] || items[|items| - 1].number <= last then last else items[|items| - 1].number
  {
    if |items| > 1 { LastOfAscending(last, items[..|items| - 1]); }
  }

  lemma {:induction false} SentOfAscending(last: u32, items: seq<Amendment>, number: u32)
    requires Ascending(items)
    ensures Carries(Sent(last, items), number) <==> number > last && Carries(items, number)
  {
    hide Carries, Sent, LastAfter;
    if items == [] {
      SentNone(last);
      NoneCarried(number);
    } else {
      var n := |items| - 1;
      var init, item := items[..n], items[n];
      assert items == init + [item];
      SentOfAscending(last, init, number);
      LastOfAscending(last, init);
      SentSnoc(last, init, item);
      CarriesSnoc(init, item, number);
      CarriesSnoc(Sent(last, init), item, number);
      if n > 0 {
        CarriesLast(init);
        assert init[n - 1].number == items[n - 1].number <= item.number;
      }
    }
  }

  lemma SentNone(last: u32)
    ensures Sent(last, []) == []
  {
  }

  lemma SentSnoc(last: u32, init: seq<Amendment>, item: Amendment)
    ensures Sent(last, init + [item]) ==
            if item.number > LastAfter(last, init) then Sent(last, init) + [item] else Sent(last, init)
  {
    assert (init + [item])[..|init|] == init;
  }

  lemma NoneCarried(number: u32)
    ensures !Carries([], number)
  {
  }

  lemma CarriesLast(ams: seq<Amendment>)
    requires ams != []
    ensures Carries(ams, ams[|ams| - 1].number)
  {
  }

  lemma CarriesSnoc(ams: seq<Amendment>, item: Amendment, number: u32)
    ensures Carries(ams + [item], number) <==> Carries(ams, number) || item.number == number
  {
    var all := ams + [item];
    assert all[|ams|] == item;
    if Carries(ams, number) {
      var i :| 0 <= i < |ams| && ams[i].number == number;
      assert all[i] == ams[i];
    }
  }

  /** Whatever the order in the file, one look sends exactly the numbers above the last one, smallest first. */
  lemma LookSendsAll(last: u32, content: string, number: u32)
    ensures var sent := Sent(last, ItemsOf(content));
            && (Carries(sent, number) <==> number > last && Carries(Amendments(content, false), number))
            && (forall i :: 0 <= i < |sent| ==> sent[i] in Amendments(content, false))
            && forall i, j :: 0 <= i < j < |sent| ==> sent[i].number < sent[j].number
  {
    hide Amendments, Sort, Sent, LastAfter;
    var ams, items := Amendments(content, false), ItemsOf(content);
    NumberOrder();
    SortSorts(ams, NumberLe);
    SentOfAscending(last, items, number);
    SentRises(last, items);
    SameNumbers(ams, items, number);
    SentAreItems(last, items);
    forall i | 0 <= i < |Sent(last, items)| ensures Sent(last, items)[i] in ams {
      assert Sent(last, items)[i] in Sent(last, items);
      assert Sent(last, items)[i] in items;
      assert Sent(last, items)[i] in multiset(items);
    }
  }

  lemma SameNumbers(a: seq<Amendment>, b: seq<Amendment>, number: u32)
    requires multiset(a) == multiset(b)
    ensures Carries(a, number) <==> Carries(b, number)
  {
    if i :| 0 <= i < |a| && a[i].number == number { assert a[i] in multiset(b); }
    if i :| 0 <= i < |b| && b[i].number == number { assert b[i] in multiset(a); }
  }

  lemma {:induction false} SentAreItems(last: u32, items: seq<Amendment>)
    ensures forall m :: m in Sent(last, items) ==> m in items
  {
    if items != [] { SentAreItems(last, items[..|items| - 1]); }
  }

  // ---------- numbers in order ----------

  predicate InSequence(ams: seq<Amendment>) {
    forall i :: 0 <= i < |ams| ==> ams[i].number == i + 1
  }

  function Larger(a: nat, b: nat): nat { if a > b then a else b }

  lemma {:induction false} SentFrom(last: u32, ams: seq<Amendment>)
    requires InSequence(ams)
    ensures LastAfter(last, ams) == Larger(last, |ams|)
    ensures Sent(last, ams) == if last < |ams| then ams[last..] else []
  {
    if ams != [] {
      var n := |ams| - 1;
      SentFrom(last, ams[..n]);
      assert last <= n ==> ams[..n][last..] + [ams[n]] == ams[last..];
    }
  }

  lemma SequenceStays(ams: seq<Amendment>)
    requires InSequence(ams)
    ensures Sort(ams, NumberLe) == ams
  {
    SortedStays(ams, NumberLe);
  }

  lemma PrefixInSequence(head: seq<string>, es: seq<Entry>, content: string)
    requires IsHead(head) && Timed(es) && InOrder(es) && content <= File(head, es)
    ensures var ams := Amendments(content, false);
            InSequence(ams) && |ams| <= |es| && ItemsOf(content) == ams
  {
    hide IsHead, Timed, File, Amendments, Sort;
    PrefixNumbers(head, es, content);
    SequenceStays(Amendments(content, false));
  }

  /** No look cuts the text of an amendment. */
  predicate SeesWholeTexts(looks: seq<Look>, es: seq<Entry>) {
    forall i :: 0 <= i < |looks| && looks[i].content.Some? ==>
      Amendments(looks[i].content.value, false) <= Readings(es)
  }

  /** The file as some append left it is such a look, and so is one that stops in the middle of a line. */
  lemma WholeTexts(head: seq<string>, es: seq<Entry>, k: nat, content: string)
    requires IsHead(head) && Timed(es) && content <= File(head, es)
    requires !EndsLine(content) || (k <= |es| && content == File(head, es[..k]))
    ensures Amendments(content, false) <= Readings(es)
  {
    hide IsHead, File, Amendments, Recovered, EndsLine, CutAtLine, NewlineFree;
    if EndsLine(content) {
      AmendmentRoundTrip(head, es[..k], false);
      assert Readings(es[..k]) == Readings(es)[..k];
    } else {
      TornRead(head, es, |content|);
      assert File(head, es)[..|content|] == content;
    }
  }

  /** What one look sends of a file in order. */
  lemma LookInOrder(last: u32, head: seq<string>, es: seq<Entry>, content: string)
    requires IsHead(head) && Timed(es) && InOrder(es) && content <= File(head, es) && last <= |es|
    ensures var ams := Amendments(content, false);
            && |ams| <= |es| && LastAfter(last, ItemsOf(content)) == Larger(last, |ams|)
            && Consecutive(Sent(last, ItemsOf(content)), last, Larger(last, |ams|))
            && (ams <= Readings(es) ==>
                  Sent(last, ItemsOf(content)) == Readings(es)[last..Larger(last, |ams|)])
  {
    hide IsHead, Timed, File, Amendments, Readings, ItemsOf;
    PrefixInSequence(head, es, content);
    SentFrom(last, Amendments(content, false));
  }

  /** The numbers from `low` up to `high`, one after another. */
  predicate Consecutive(ams: seq<Amendment>, low: nat, high: nat) {
    low <= high && |ams| == high - low && forall i :: 0 <= i < |ams| ==> ams[i].number == low + 1 + i
  }

  lemma ConsecutiveConcat(a: seq<Amendment>, b: seq<Amendment>, low: nat, mid: nat, high: nat)
    requires Consecutive(a, low, mid) && Consecutive(b, mid, high)
    ensures Consecutive(a + b, low, high)
  {
  }

  /** Of a file whose numbers are in order each amendment is sent once and none is passed over, torn reads or not. */
  lemma {:induction false} SentInOrder(w: Watch, looks: seq<Look>, head: seq<string>, es: seq<Entry>)
    requires IsHead(head) && Timed(es) && InOrder(es) && w.last <= |es| && SeesPrefixes(looks, File(head, es))
    ensures var last := After(w, looks).last;
            && last <= |es| && Consecutive(AllSent(w, looks), w.last, last)
            && (SeesWholeTexts(looks, es) ==> AllSent(w, looks) == Readings(es)[w.last..last])
  {
    hide IsHead, Timed, File, Sent, LastAfter, ItemsOf, InOrder, Consecutive, Amendments, Readings;
    if looks == [] {
      NothingConsecutive(w.last);
    } else {
      var n := |looks| - 1;
      var before := After(w, looks[..n]);
      FewerLooks(looks, File(head, es));
      SentInOrder(w, looks[..n], head, es);
      var r := Reads(before, looks[n]);
      if r.Some? {
        LookInOrder(before.last, head, es, r.value);
      } else {
        NothingConsecutive(before.last);
      }
      var now := if r.Some? then Sent(before.last, ItemsOf(r.value)) else [];
      ConsecutiveConcat(AllSent(w, looks[..n]), now, w.last, before.last, After(w, looks).last);
    }
  }

  lemma NothingConsecutive(last: nat)
    ensures Consecutive([], last, last)
  {
  }

  // ---------- when every amendment is delivered ----------

  /** The last look reads this file. */
  predicate FindsAtLast(w: Watch, looks: seq<Look>, file: string) {
    looks != [] && Reads(After(w, looks[..|looks| - 1]), looks[|looks| - 1]) == Some(file)
  }

  /** Rising numbers between two bounds, as many as there is room for, are all of them. */
  lemma {:induction false} RisingFills(ams: seq<Amendment>, low: u32, high: u32)
    requires Rising(ams, low, high)
    ensures |ams| <= high - low
    ensures |ams| == high - low ==> Consecutive(ams, low, high)
  {
    if ams != [] {
      var n := |ams| - 1;
      RisingFills(ams[..n], low, ams[n].number - 1);
    }
  }

  /** Entries behind their places that show every number are at their places. */
  lemma {:induction false} AllNumbersInOrder(es: seq<Entry>, m: nat)
    requires Behind(es, m) && |es| < LIMIT
    requires forall v: u32 :: m < v <= |es| ==> HasNumber(es, v)
    ensures InOrder(es)
  {
    if |es| == m {
      assert es[..m] == es;
    } else {
      var n := |es| - 1;
      var init := es[..n];
      assert init[..m] == es[..m];
      assert es[n].number == |es| by {
        assert HasNumber(es, |es|);
      }
      forall v: u32 | m < v <= n ensures HasNumber(init, v) {
        assert HasNumber(es, v);
        var p :| 0 <= p < |es| && es[p].number == v;
        assert init[p].number == v;
      }
      AllNumbersInOrder(init, m);
      assert es == init + [es[n]];
    }
  }

  /**
   * Where a look has found the whole file, every amendment past the first `m` has been sent if and only if the
   * numbers in the file are in order, and then each was sent once, in file order.
   */
  lemma AllDeliveredExactly(w: Watch, looks: seq<Look>, head: seq<string>, es: seq<Entry>)
    requires IsHead(head) && Timed(es) && |es| < LIMIT && Behind(es, w.last) && SeesPrefixes(looks, File(head, es))
    requires FindsAtLast(w, looks, File(head, es))
    ensures |AllSent(w, looks)| == |es| - w.last <==> InOrder(es)
    ensures InOrder(es) && SeesWholeTexts(looks, es) ==> AllSent(w, looks) == Readings(es)[w.last..]
  {
    hide IsHead, Timed, File, Sent, LastAfter, ItemsOf, InOrder, Behind, SeesPrefixes, SeesWholeTexts, Readings, Reads;
    hide Consecutive, AllSent, After;
    var sent := AllSent(w, looks);
    SentWithin(w, looks, head, es);
    RisingFills(sent, w.last, |es|);
    if |sent| == |es| - w.last {
      forall v: u32 | w.last < v <= |es| ensures HasNumber(es, v) {
        SentIsThere(sent, es, w.last, v);
      }
      AllNumbersInOrder(es, w.last);
    }
    if InOrder(es) {
      SentInOrder(w, looks, head, es);
      LastOfWhole(w, looks, head, es);
      ConsecutiveLength(sent, w.last, |es|);
    }
  }

  lemma ConsecutiveLength(ams: seq<Amendment>, low: nat, high: nat)
    requires Consecutive(ams, low, high)
    ensures |ams| == high - low
  {
  }

  lemma SentIsThere(sent: seq<Amendment>, es: seq<Entry>, low: u32, v: u32)
    requires Consecutive(sent, low, |es|) && NumbersAmong(sent, es) && low < v <= |es|
    ensures HasNumber(es, v)
  {
    hide HasNumber;
    assert sent[v - low - 1].number == v;
  }

  lemma SentWithin(w: Watch, looks: seq<Look>, head: seq<string>, es: seq<Entry>)
    requires IsHead(head) && Timed(es) && |es| < LIMIT && Behind(es, w.last) && SeesPrefixes(looks, File(head, es))
    ensures w.last <= |es| && Rising(AllSent(w, looks), w.last, |es|) && NumbersAmong(AllSent(w, looks), es)
  {
    hide IsHead, Timed, File, AllSent, After;
    var sent := AllSent(w, looks);
    NumbersSentOnce(w, looks);
    AllSentAmong(w, looks, head, es);
    forall i | 0 <= i < |sent| ensures sent[i].number <= |es| {
      assert HasNumber(es, sent[i].number);
      var p :| 0 <= p < |es| && es[p].number == sent[i].number;
      NumberBehind(es, w.last, p);
    }
  }

  lemma NumberBehind(es: seq<Entry>, m: nat, p: nat)
    requires Behind(es, m) && p < |es|
    ensures es[p].number <= p + 1
  {
    assert p < m ==> es[..m][p] == es[p];
  }

  lemma LastOfWhole(w: Watch, looks: seq<Look>, head: seq<string>, es: seq<Entry>)
    requires IsHead(head) && Timed(es) && InOrder(es) && w.last <= |es| && SeesPrefixes(looks, File(head, es))
    requires FindsAtLast(w, looks, File(head, es))
    ensures After(w, looks).last == |es|
  {
    hide IsHead, Timed, File, Sent, LastAfter, ItemsOf, InOrder, Amendments, Readings, SeesWholeTexts, Consecutive;
    hide AllSent, Reads;
    var init := looks[..|looks| - 1];
    FewerLooks(looks, File(head, es));
    SentInOrder(w, init, head, es);
    AmendmentRoundTrip(head, es, false);
    LookInOrder(After(w, init).last, head, es, File(head, es));
  }

  /** Two looks at a file that stands still read it, unless a file of that size was the last one read. */
  lemma StillFileIsRead(w: Watch, size: nat, content: string)
    ensures var l := Look(Some(size), Some(content));
            Reads(w, l).Some? || Reads(Looked(w, l), l).Some? <==> w.processedSize != Some(size)
  {
  }

  /**
   * Senders that count and append in any interleaving, and a watcher that looks at any times and reads any part
   * of the file: once it has found the final file, every message was delivered if and only if no append fell
   * between another sender's count and its append.
   */
  lemma DeliveredIffUndisturbed(
      head: seq<string>, past: seq<Note>, notes: seq<Note>, schedule: seq<nat>, w: World,
      watch: Watch, looks: seq<Look>)
    requires IsHead(head) && TimedNotes(past) && TimedNotes(notes) && |past| < LIMIT - 1 && |w.entries| < LIMIT - 1
    requires Run(notes, Start(head, past, |notes|), schedule) == Some(w)
    requires watch.last == |past| && SeesPrefixes(looks, w.file) && FindsAtLast(watch, looks, w.file)
    ensures |AllSent(watch, looks)| == |w.entries| - |past| <==>
            Undisturbed(notes, Start(head, past, |notes|), schedule)
  {
    hide IsHead, TimedNotes, Timed, File, InOrder, Behind, SeesPrefixes, SeesWholeTexts, Readings, Reads, AllSent;
    hide After, FindsAtLast, Run, Undisturbed, Start, Amendments, DistinctNumbers;
    NumbersDistinctExactly(head, past, notes, schedule, w);
    AllDeliveredExactly(watch, looks, head, w.entries);
  }
}
