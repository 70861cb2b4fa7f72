/** When the subscribers of failed plugins keep their order through a reload (src/subscriber.rs, src/agent/build.rs). */
module KeptOrder {
  import opened Text
  import opened Sequences
  import opened Subscribers
  import opened Reload
  import opened ReloadLaws

  // ---------- one before the other ----------

  predicate Precedes(xs: seq<Subscriber>, a: Subscriber, b: Subscriber) {
    exists i, j :: 0 <= i < j < |xs| && xs[i] == a && xs[j] == b
  }

  lemma PrecedesInLonger(xs: seq<Subscriber>, ys: seq<Subscriber>, a: Subscriber, b: Subscriber)
    requires xs <= ys && Precedes(xs, a, b)
    ensures Precedes(ys, a, b)
  {
    var i, j :| 0 <= i < j < |xs| && xs[i] == a && xs[j] == b;
    assert ys[i] == a && ys[j] == b;
  }

  /** What a longer list adds comes behind what was there. */
  lemma AddedBehind(xs: seq<Subscriber>, ys: seq<Subscriber>, a: Subscriber, b: Subscriber)
    requires xs <= ys && a in xs && b !in xs && b in ys
    ensures Precedes(ys, a, b)
  {
    var i :| 0 <= i < |xs| && xs[i] == a;
    var j :| 0 <= j < |ys| && ys[j] == b;
    forall m | 0 <= m < |xs| ensures ys[m] != b {
      assert ys[m] == xs[m];
    }
    assert ys[i] == a;
  }

  // ---------- the order of collecting ----------

  lemma {:induction false} AddAllExtends(out: seq<Subscriber>, subs: seq<Subscriber>)
    ensures out <= AddAll(out, subs)
  {
    if subs != [] { AddAllExtends(out, subs[..|subs| - 1]); }
  }

  lemma {:induction false} AddAllConcat(out: seq<Subscriber>, a: seq<Subscriber>, b: seq<Subscriber>)
    ensures AddAll(out, a + b) == AddAll(AddAll(out, a), b)
  {
    hide AddOnce;
    if b == [] {
      assert a + b == a;
    } else {
      var n := |b| - 1;
      assert (a + b)[..|a + b| - 1] == a + b[..n];
      AddAllConcat(out, a, b[..n]);
    }
  }

  lemma {:induction false} SharedExtends(table: Table, x: seq<string>, y: seq<string>)
    ensures SharedIn(table, x) <= SharedIn(table, x + y)
  {
    hide AddAll;
    if y == [] {
      assert x + y == x;
    } else {
      var n := |y| - 1;
      assert (x + y)[..|x + y| - 1] == x + y[..n];
      SharedExtends(table, x, y[..n]);
      AddAllExtends(SharedIn(table, x + y[..n]), ListOf(table, y[n]));
    }
  }

  predicate Hears(s: Subscriber, event: string) { event in s.events }

  predicate Covers(a: Subscriber, b: Subscriber) {
    forall event :: event in b.events ==> event in a.events
  }

  lemma HearersListed(subs: seq<Subscriber>, event: string, s: Subscriber)
    ensures s in ListFor(subs, event) <==> s in subs && Hears(s, event)
  {
    ListForMembers(subs, event, s);
    TimesPositive(s.events, event);
  }

  /** Collecting one more list: an earlier subscriber that hears all a later one hears is collected before it. */
  lemma CollectedInOrder(out: seq<Subscriber>, subs: seq<Subscriber>, i: nat, j: nat, event: string)
    requires DistinctIds(subs) && DistinctIds(out) && i < j < |subs| && Covers(subs[i], subs[j])
    requires forall s :: s in out ==> s in subs
    requires subs[j] in out ==> Precedes(out, subs[i], subs[j])
    ensures var r := AddAll(out, ListFor(subs, event));
            subs[j] in r ==> Precedes(r, subs[i], subs[j])
  {
    hide AddAll, ListFor, Times, Precedes;
    var a, b := subs[i], subs[j];
    var front, back := subs[..j], subs[j..];
    var list := ListFor(subs, event);
    var r := AddAll(out, list);
    AddAllExtends(out, list);
    HearersListed(subs, event, b);
    forall s | s in list ensures s in subs { HearersListed(subs, event, s); }
    AddAllWorks(out, list, subs);
    if b in out {
      PrecedesInLonger(out, r, a, b);
    } else if b in r {
      assert subs == front + back;
      ListForConcat(front, back, event);
      var mid := AddAll(out, ListFor(front, event));
      AddAllConcat(out, ListFor(front, event), ListFor(back, event));
      AddAllExtends(mid, ListFor(back, event));
      forall s | s in ListFor(front, event) ensures s in subs { HearersListed(front, event, s); }
      AddAllWorks(out, ListFor(front, event), subs);
      HearersListed(front, event, a);
      HearersListed(front, event, b);
      assert front[i] == a;
      assert b !in front by { NotEarlier(subs, j); }
      AddedBehind(mid, r, a, b);
    }
  }

  lemma NotEarlier(subs: seq<Subscriber>, j: nat)
    requires DistinctIds(subs) && j < |subs|
    ensures subs[j] !in subs[..j]
  {
  }

  lemma {:induction false} SharedInOrder(table: Table, order: seq<string>, subs: seq<Subscriber>, i: nat, j: nat)
    requires Indexes(table, subs) && DistinctIds(subs) && i < j < |subs| && Covers(subs[i], subs[j])
    ensures subs[j] in SharedIn(table, order) ==> Precedes(SharedIn(table, order), subs[i], subs[j])
  {
    hide AddAll, ListFor, Precedes, Covers, DistinctIds;
    if order != [] {
      var n := |order| - 1;
      SharedInOrder(table, order[..n], subs, i, j);
      SharedMembers(table, order[..n], subs);
      assert ListOf(table, order[n]) == ListFor(subs, order[n]);
      CollectedInOrder(SharedIn(table, order[..n]), subs, i, j, order[n]);
    }
  }

  // ---------- order and lists ----------

  lemma {:induction false} FilterPrecedes(xs: seq<Subscriber>, keep: Subscriber -> bool, a: Subscriber, b: Subscriber)
    ensures Precedes(Filter(xs, keep), a, b) <==> Precedes(xs, a, b) && keep(a) && keep(b)
  {
    hide Precedes, Filter;
    if xs == [] {
      EmptyPrecedes(keep, a, b);
    } else {
      var init, z := xs[..|xs| - 1], xs[|xs| - 1];
      FilterPrecedes(init, keep, a, b);
      FilterMembers(init, keep, a);
      PrecedesSnoc(init, z, a, b);
      PrecedesSnoc(Filter(init, keep), z, a, b);
      FilterUnrolled(xs, keep);
      assert xs == init + [z];
      assert Filter(init, keep) + [] == Filter(init, keep);
    }
  }

  lemma FilterUnrolled(xs: seq<Subscriber>, keep: Subscriber -> bool)
    requires xs != []
    ensures Filter(xs, keep) == Filter(xs[..|xs| - 1], keep) + if keep(xs[|xs| - 1]) then [xs[|xs| - 1]] else []
  {
  }

  lemma EmptyPrecedes(keep: Subscriber -> bool, a: Subscriber, b: Subscriber)
    ensures Filter([], keep) == [] && !Precedes([], a, b)
  {
  }

  lemma PrecedesSnoc(xs: seq<Subscriber>, z: Subscriber, a: Subscriber, b: Subscriber)
    ensures Precedes(xs + [z], a, b) <==> Precedes(xs, a, b) || (a in xs && b == z)
  {
    var ys := xs + [z];
    if Precedes(xs, a, b) { PrecedesInLonger(xs, ys, a, b); }
    if a in xs && b == z {
      var i :| 0 <= i < |xs| && xs[i] == a;
      assert ys[i] == a && ys[|xs|] == b;
    }
    if Precedes(ys, a, b) {
      var i, j :| 0 <= i < j < |ys| && ys[i] == a && ys[j] == b;
      assert xs[i] == a;
      assert j < |xs| ==> xs[j] == b;
    }
  }

  /** Lists of distinct subscribers with the same members in the same order are the same. */
  lemma {:induction false} SameOrderSame(xs: seq<Subscriber>, ys: seq<Subscriber>)
    requires DistinctIds(xs) && DistinctIds(ys) && forall s :: s in xs <==> s in ys
    requires forall a, b :: Precedes(xs, a, b) ==> Precedes(ys, a, b)
    ensures xs == ys
  {
    hide Precedes;
    SameEmptiness(xs, ys);
    if xs != [] {
      LastIsLast(xs, ys);
      var us, vs, z := xs[..|xs| - 1], ys[..|ys| - 1], xs[|xs| - 1];
      assert xs == us + [z] && ys == vs + [z];
      NotEarlier(xs, |xs| - 1);
      NotEarlier(ys, |ys| - 1);
      WithoutLast(us, vs, z);
      SameOrderSame(us, vs);
    }
  }

  lemma SameEmptiness(xs: seq<Subscriber>, ys: seq<Subscriber>)
    requires forall s :: s in xs <==> s in ys
    ensures xs == [] <==> ys == []
  {
    assert |ys| > 0 ==> ys[0] in xs;
    assert |xs| > 0 ==> xs[0] in ys;
  }

  lemma WithoutLast(us: seq<Subscriber>, vs: seq<Subscriber>, z: Subscriber)
    requires z !in us && z !in vs && forall s :: s in us + [z] <==> s in vs + [z]
    requires forall a, b :: Precedes(us + [z], a, b) ==> Precedes(vs + [z], a, b)
    ensures forall s :: s in us <==> s in vs
    ensures forall a, b :: Precedes(us, a, b) ==> Precedes(vs, a, b)
  {
    hide Precedes;
    forall s ensures s in us <==> s in vs {
      assert s in us + [z] <==> s in us || s == z;
      assert s in vs + [z] <==> s in vs || s == z;
    }
    forall a, b | Precedes(us, a, b) ensures Precedes(vs, a, b) {
      PrecedesSnoc(us, z, a, b);
      PrecedesSnoc(vs, z, a, b);
      var i, j := PrecedesAt(us, a, b);
      assert b in us;
    }
  }

  lemma LastIsLast(xs: seq<Subscriber>, ys: seq<Subscriber>)
    requires DistinctIds(xs) && DistinctIds(ys) && xs != [] && forall s :: s in xs <==> s in ys
    requires forall a, b :: Precedes(xs, a, b) ==> Precedes(ys, a, b)
    ensures ys != [] && ys[|ys| - 1] == xs[|xs| - 1]
  {
    var z := xs[|xs| - 1];
    assert z in ys;
    var w := ys[|ys| - 1];
    assert w in xs;
    var i :| 0 <= i < |xs| && xs[i] == w;
    assert i < |xs| - 1 ==> Precedes(xs, w, z);
    NothingBehindLast(ys, z);
  }

  lemma NothingBehindLast(ys: seq<Subscriber>, b: Subscriber)
    requires DistinctIds(ys) && ys != []
    ensures !Precedes(ys, ys[|ys| - 1], b)
  {
  }

  lemma {:induction false} ListOfHearers(subs: seq<Subscriber>, event: string)
    ensures ListFor(Filter(subs, (s: Subscriber) => Hears(s, event)), event) == ListFor(subs, event)
  {
    hide Times, Copies, Filter;
    var keep := (s: Subscriber) => Hears(s, event);
    if subs == [] {
      assert Filter(subs, keep) == [] by { FilterNone(subs, keep); }
    } else {
      var init, z := subs[..|subs| - 1], subs[|subs| - 1];
      ListOfHearers(init, event);
      FilterUnrolled(subs, keep);
      ListForSnoc(Filter(init, keep), z, event);
      TimesPositive(z.events, event);
      assert Filter(init, keep) + [] == Filter(init, keep);
      assert !Hears(z, event) ==> Copies(z, Times(z.events, event)) == [];
      assert ListFor(init, event) + [] == ListFor(init, event);
    }
  }

  /** Lists of an event agree when its hearers come in the same order. */
  lemma SameHearersSameList(xs: seq<Subscriber>, ys: seq<Subscriber>, event: string)
    requires DistinctIds(xs) && DistinctIds(ys)
    requires forall s :: Hears(s, event) ==> (s in xs <==> s in ys)
    requires forall a, b :: Hears(a, event) && Hears(b, event) && Precedes(xs, a, b) ==> Precedes(ys, a, b)
    ensures ListFor(xs, event) == ListFor(ys, event)
  {
    hide ListFor, DistinctIds, Precedes, Filter, Hears;
    var keep := (s: Subscriber) => Hears(s, event);
    var us, vs := Filter(xs, keep), Filter(ys, keep);
    DistinctFilter(xs, keep);
    DistinctFilter(ys, keep);
    forall s ensures s in us <==> s in vs {
      FilterMembers(xs, keep, s);
      FilterMembers(ys, keep, s);
    }
    forall a, b | Precedes(us, a, b) ensures Precedes(vs, a, b) {
      FilterPrecedes(xs, keep, a, b);
      FilterPrecedes(ys, keep, a, b);
    }
    SameOrderSame(us, vs);
    ListOfHearers(xs, event);
    ListOfHearers(ys, event);
  }

  lemma {:induction false} DistinctFilter(xs: seq<Subscriber>, keep: Subscriber -> bool)
    requires DistinctIds(xs)
    ensures DistinctIds(Filter(xs, keep))
  {
    if xs != [] {
      var n := |xs| - 1;
      DistinctFilter(xs[..n], keep);
      forall s | s in Filter(xs[..n], keep) ensures s.id != xs[n].id {
        FilterMembers(xs[..n], keep, s);
      }
    }
  }

  // ---------- the condition ----------

  /** The order in which a hash map gives its keys: each of them once. */
  ghost predicate KeyOrder(order: seq<string>, table: Table) {
    && (forall event :: event in table <==> event in order)
    && (forall i, j :: 0 <= i < j < |order| ==> order[i] != order[j])
  }

  predicate ShareEvent(a: Subscriber, b: Subscriber) {
    exists event :: event in a.events && event in b.events
  }

  predicate KeptPair(subs: seq<Subscriber>, failed: seq<string>, i: nat, j: nat) {
    i < j < |subs| && subs[i].plugin in failed && subs[j].plugin in failed
  }

  /** Of two kept subscribers that share an event, the later one hears nothing the earlier one does not. */
  predicate NoneOvertakes(subs: seq<Subscriber>, failed: seq<string>) {
    forall i, j :: 0 <= i < j < |subs| ==>
      KeptPair(subs, failed, i, j) && ShareEvent(subs[i], subs[j]) ==> Covers(subs[i], subs[j])
  }

  /** After a reload each event reaches the fresh subscribers, and then the kept ones in the order it had them. */
  ghost predicate OrderKept(table: Table, order: seq<string>, s: Summary) {
    forall event :: ListFor(SubscribersAfter(table, order, s), event) ==
                    ListFor(s.subscribers, event) + KeptSubscribers(ListOf(table, event), s.failed)
  }

  ghost predicate OrderAlwaysKept(table: Table, s: Summary) {
    forall order :: KeyOrder(order, table) ==> OrderKept(table, order, s)
  }

  function KeptNow(table: Table, order: seq<string>, s: Summary): seq<Subscriber> {
    KeptSubscribers(SharedIn(table, order), s.failed)
  }

  lemma ListAfter(table: Table, order: seq<string>, subs: seq<Subscriber>, s: Summary, event: string)
    requires Indexes(table, subs)
    ensures ListFor(SubscribersAfter(table, order, s), event) ==
            ListFor(s.subscribers, event) + ListFor(KeptNow(table, order, s), event)
    ensures KeptSubscribers(ListOf(table, event), s.failed) == ListFor(KeptSubscribers(subs, s.failed), event)
  {
    hide ListFor, Filter, SharedIn;
    ListForConcat(s.subscribers, KeptNow(table, order, s), event);
    KeptLists(subs, s.failed, event);
  }

  // ---------- the condition suffices ----------

  lemma PrecedesAt(xs: seq<Subscriber>, a: Subscriber, b: Subscriber) returns (i: nat, j: nat)
    requires Precedes(xs, a, b)
    ensures i < j < |xs| && xs[i] == a && xs[j] == b
  {
    i, j :| 0 <= i < j < |xs| && xs[i] == a && xs[j] == b;
  }

  lemma PairStaysInOrder(
      table: Table, order: seq<string>, subs: seq<Subscriber>, s: Summary, event: string, a: Subscriber, b: Subscriber)
    requires Indexes(table, subs) && DistinctIds(subs) && KeyOrder(order, table) && NoneOvertakes(subs, s.failed)
    requires Hears(a, event) && Hears(b, event) && Precedes(KeptSubscribers(subs, s.failed), a, b)
    ensures Precedes(KeptNow(table, order, s), a, b)
  {
    hide ListFor, Filter, SharedIn, Precedes, DistinctIds, Covers;
    var keep := (t: Subscriber) => t.plugin in s.failed;
    FilterPrecedes(subs, keep, a, b);
    var i, j := PrecedesAt(subs, a, b);
    assert KeptPair(subs, s.failed, i, j) && ShareEvent(subs[i], subs[j]);
    SharedInOrder(table, order, subs, i, j);
    SharedGivesBack(table, order, subs);
    FilterPrecedes(SharedIn(table, order), keep, a, b);
  }

  lemma CoveredKeepsOrder(table: Table, order: seq<string>, subs: seq<Subscriber>, s: Summary)
    requires Indexes(table, subs) && DistinctIds(subs) && KeyOrder(order, table) && NoneOvertakes(subs, s.failed)
    ensures OrderKept(table, order, s)
  {
    hide ListFor, Filter, SharedIn, Precedes, DistinctIds, NoneOvertakes, SubscribersAfter, KeyOrder;
    var keep := (t: Subscriber) => t.plugin in s.failed;
    var kept, now := KeptSubscribers(subs, s.failed), KeptNow(table, order, s);
    assert Enumerates(order, table) by { KeyOrderEnumerates(order, table); }
    SharedGivesBack(table, order, subs);
    DistinctFilter(subs, keep);
    DistinctFilter(SharedIn(table, order), keep);
    forall event
      ensures ListFor(SubscribersAfter(table, order, s), event) ==
              ListFor(s.subscribers, event) + KeptSubscribers(ListOf(table, event), s.failed)
    {
      ListAfter(table, order, subs, s, event);
      forall t | Hears(t, event) ensures t in kept <==> t in now {
        FilterMembers(subs, keep, t);
        FilterMembers(SharedIn(table, order), keep, t);
      }
      forall a, b | Hears(a, event) && Hears(b, event) && Precedes(kept, a, b) ensures Precedes(now, a, b) {
        PairStaysInOrder(table, order, subs, s, event, a, b);
      }
      SameHearersSameList(kept, now, event);
    }
  }

  lemma KeyOrderEnumerates(order: seq<string>, table: Table)
    requires KeyOrder(order, table)
    ensures Enumerates(order, table)
  {
  }

  // ---------- and is needed ----------

  /** An order of these keys that starts with `first`. */
  lemma OrderStartingWith(keys: set<string>, first: string) returns (order: seq<string>)
    requires first in keys
    ensures |order| > 0 && order[0] == first
    ensures forall event :: event in keys <==> event in order
    ensures forall i, j :: 0 <= i < j < |order| ==> order[i] != order[j]
  {
    var rest := ListKeys(keys - {first});
    order := [first] + rest;
  }

  lemma ListKeys(keys: set<string>) returns (order: seq<string>)
    ensures forall event :: event in keys <==> event in order
    ensures forall i, j :: 0 <= i < j < |order| ==> order[i] != order[j]
  {
    if keys == {} {
      order := [];
    } else {
      var key :| key in keys;
      var rest := ListKeys(keys - {key});
      order := [key] + rest;
    }
  }

  /** Collecting the list of `first` before any other puts its hearers in front. */
  lemma FirstHearersLead(
      table: Table, order: seq<string>, subs: seq<Subscriber>, first: string, a: Subscriber, b: Subscriber)
    requires Indexes(table, subs) && DistinctIds(subs) && Enumerates(order, table)
    requires order != [] && order[0] == first && a in subs && b in subs
    requires Hears(b, first) && !Hears(a, first) && a.events != []
    ensures Precedes(SharedIn(table, order), b, a)
  {
    hide AddAll, ListFor, Times, Precedes, DistinctIds, SharedIn;
    assert order == [first] + order[1..];
    SharedExtends(table, [first], order[1..]);
    SharedMembers(table, [first], subs);
    SharedGivesBack(table, order, subs);
    assert HearsOneOf(b, [first]) && !HearsOneOf(a, [first]);
    AddedBehind(SharedIn(table, [first]), SharedIn(table, order), b, a);
  }

  /** In an event's list, every place of the earlier subscriber comes before every place of the later one. */
  lemma ListInOrder(xs: seq<Subscriber>, event: string, a: Subscriber, b: Subscriber, p: nat, q: nat)
    requires DistinctIds(xs) && Precedes(xs, a, b)
    requires p < |ListFor(xs, event)| && q < |ListFor(xs, event)|
    requires ListFor(xs, event)[p] == a && ListFor(xs, event)[q] == b
    ensures p < q
  {
    hide ListFor, Times;
    var i, j := PrecedesAt(xs, a, b);
    var front, back := xs[..j], xs[j..];
    assert xs == front + back;
    ListForConcat(front, back, event);
    HearersListed(front, event, b);
    HearersListed(back, event, a);
    NotEarlier(xs, j);
    assert a !in back by { assert forall m :: j <= m < |xs| ==> xs[m].id != xs[i].id; }
    var x := ListFor(front, event);
    var y, list := ListFor(back, event), ListFor(xs, event);
    assert forall m :: |x| <= m < |list| ==> list[m] == y[m - |x|];
    assert forall m :: 0 <= m < |x| ==> list[m] == x[m];
  }

  /** Two subscribers in opposite orders give an event both hear different lists. */
  lemma OppositeLists(xs: seq<Subscriber>, ys: seq<Subscriber>, event: string, a: Subscriber, b: Subscriber)
    requires DistinctIds(xs) && DistinctIds(ys) && Precedes(xs, a, b) && Precedes(ys, b, a)
    requires Hears(a, event) && Hears(b, event)
    ensures ListFor(xs, event) != ListFor(ys, event)
  {
    hide ListFor, Precedes, DistinctIds, Hears;
    HearersListed(xs, event, a);
    HearersListed(xs, event, b);
    var i, j := PrecedesAt(xs, a, b);
    assert a in xs && b in xs;
    var list := ListFor(xs, event);
    var p :| 0 <= p < |list| && list[p] == a;
    var q :| 0 <= q < |list| && list[q] == b;
    ListInOrder(xs, event, a, b, p, q);
    if ListFor(ys, event) == list {
      ListInOrder(ys, event, b, a, q, p);
    }
  }

  /** A pair the condition rules out is swapped by some hash order. */
  lemma OvertakenSomewhere(table: Table, subs: seq<Subscriber>, s: Summary, i: nat, j: nat)
    returns (order: seq<string>, event: string)
    requires Indexes(table, subs) && DistinctIds(subs)
    requires KeptPair(subs, s.failed, i, j) && ShareEvent(subs[i], subs[j]) && !Covers(subs[i], subs[j])
    ensures KeyOrder(order, table)
    ensures ListFor(KeptNow(table, order, s), event) != ListFor(KeptSubscribers(subs, s.failed), event)
  {
    hide ListFor, Filter, SharedIn, Precedes, DistinctIds;
    var a, b := subs[i], subs[j];
    event :| event in a.events && event in b.events;
    var first :| first in b.events && first !in a.events;
    HearersListed(subs, first, b);
    assert b in ListOf(table, first);
    order := OrderStartingWith(table.Keys, first);
    FirstHearersLead(table, order, subs, first, a, b);
    var keep := (t: Subscriber) => t.plugin in s.failed;
    assert Precedes(subs, a, b) by { PrecedesFrom(subs, i, j); }
    FilterPrecedes(subs, keep, a, b);
    FilterPrecedes(SharedIn(table, order), keep, b, a);
    SharedMembers(table, order, subs);
    DistinctFilter(subs, keep);
    DistinctFilter(SharedIn(table, order), keep);
    OppositeLists(KeptSubscribers(subs, s.failed), KeptNow(table, order, s), event, a, b);
  }

  lemma PrecedesFrom(xs: seq<Subscriber>, i: nat, j: nat)
    requires i < j < |xs|
    ensures Precedes(xs, xs[i], xs[j])
  {
  }

  /**
   * Every hash order keeps the kept subscribers of every event in their old order exactly when, of any two that
   * share an event, the later hears nothing the earlier does not.
   */
  lemma OrderKeptExactly(table: Table, subs: seq<Subscriber>, s: Summary)
    requires Indexes(table, subs) && DistinctIds(subs)
    ensures OrderAlwaysKept(table, s) <==> NoneOvertakes(subs, s.failed)
  {
    hide OrderKept, Indexes, DistinctIds, ShareEvent, Covers, KeyOrder;
    if NoneOvertakes(subs, s.failed) {
      forall order | KeyOrder(order, table) ensures OrderKept(table, order, s) {
        CoveredKeepsOrder(table, order, subs, s);
      }
    }
    if OrderAlwaysKept(table, s) {
      forall i: nat, j: nat | KeptPair(subs, s.failed, i, j) && ShareEvent(subs[i], subs[j])
        ensures Covers(subs[i], subs[j])
      {
        PairIsCovered(table, subs, s, i, j);
      }
    }
  }

  lemma PairIsCovered(table: Table, subs: seq<Subscriber>, s: Summary, i: nat, j: nat)
    requires Indexes(table, subs) && DistinctIds(subs) && OrderAlwaysKept(table, s)
    requires KeptPair(subs, s.failed, i, j) && ShareEvent(subs[i], subs[j])
    ensures Covers(subs[i], subs[j])
  {
    hide DistinctIds, ShareEvent, Covers, ListFor, KeptNow, SubscribersAfter, KeyOrder;
    if !Covers(subs[i], subs[j]) {
      var order, event := OvertakenSomewhere(table, subs, s, i, j);
      ListAfter(table, order, subs, s, event);
      assert OrderKept(table, order, s);
      Cancel(ListFor(s.subscribers, event), ListFor(KeptNow(table, order, s), event),
        ListFor(KeptSubscribers(subs, s.failed), event));
      assert false;
    }
  }

  lemma Cancel(x: seq<Subscriber>, a: seq<Subscriber>, b: seq<Subscriber>)
    ensures x + a == x + b ==> a == b
  {
    assert (x + a)[|x|..] == a && (x + b)[|x|..] == b;
  }
}
