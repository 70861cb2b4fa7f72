/** The precomputed table from events to subscribers (src/subscriber.rs). */
module Subscribers {
  import opened Text
  import opened Sequences

  /** `id` stands for the pointer, so two subscribers are the same one exactly when their ids agree. */
  datatype Subscriber = Subscriber(id: nat, plugin: string, events: seq<string>)

  type Table = map<string, seq<Subscriber>>

  function ListOf(table: Table, event: string): seq<Subscriber> {
    if event in table then table[event] else []
  }

  function Times(events: seq<string>, event: string): nat {
    if events == [] then 0 else
      Times(events[..|events| - 1], event) + if events[|events| - 1] == event then 1 else 0
  }

  function Copies(s: Subscriber, n: nat): (r: seq<Subscriber>)
    ensures |r| == n
    ensures forall t :: t in r <==> n > 0 && t == s
  {
    var r := seq(n, _ => s);
    assert n > 0 ==> r[0] == s;
    r
  }

  /** Who hears an event: the subscribers in order, each as often as it names the event. */
  function ListFor(subs: seq<Subscriber>, event: string): seq<Subscriber> {
    if subs == [] then [] else
      var last := subs[|subs| - 1];
      ListFor(subs[..|subs| - 1], event) + Copies(last, Times(last.events, event))
  }

  ghost predicate Indexes(table: Table, subs: seq<Subscriber>) {
    forall event :: ListOf(table, event) == ListFor(subs, event)
  }

  method FromShared(subs: seq<Subscriber>) returns (index: Table)
    ensures Indexes(index, subs)
  {
    index := map[];
    for i := 0 to |subs|
      invariant Indexes(index, subs[..i])
    {
      var s := subs[i];
      assert subs[..i + 1][..i] == subs[..i];
      for j := 0 to |s.events|
        invariant forall event ::
          ListOf(index, event) == ListFor(subs[..i], event) + Copies(s, Times(s.events[..j], event))
      {
        assert s.events[..j + 1][..j] == s.events[..j];
        var event := s.events[j];
        index := index[event := ListOf(index, event) + [s]];
        CopiesSnoc(s, Times(s.events[..j], event));
      }
      assert s.events[..|s.events|] == s.events;
    }
    assert subs[..|subs|] == subs;
  }

  lemma CopiesSnoc(s: Subscriber, n: nat)
    ensures Copies(s, n) + [s] == Copies(s, n + 1)
  {
  }

  // ---------- taking the table apart again ----------

  predicate HasId(out: seq<Subscriber>, id: nat) {
    exists i :: 0 <= i < |out| && out[i].id == id
  }

  function AddOnce(out: seq<Subscriber>, s: Subscriber): seq<Subscriber> {
    if HasId(out, s.id) then out else out + [s]
  }

  function AddAll(out: seq<Subscriber>, subs: seq<Subscriber>): seq<Subscriber> {
    if subs == [] then out else AddOnce(AddAll(out, subs[..|subs| - 1]), subs[|subs| - 1])
  }

  /** Every subscription once, met in the order in which the hash map gives its keys. */
  function SharedIn(table: Table, order: seq<string>): seq<Subscriber> {
    if order == [] then [] else
      AddAll(SharedIn(table, order[..|order| - 1]), ListOf(table, order[|order| - 1]))
  }

  method Shared(table: Table, order: seq<string>) returns (out: seq<Subscriber>)
    ensures out == SharedIn(table, order)
  {
    hide AddOnce;
    out := [];
    for i := 0 to |order|
      invariant out == SharedIn(table, order[..i])
    {
      assert order[..i + 1][..i] == order[..i];
      var subs := ListOf(table, order[i]);
      ghost var before := out;
      for j := 0 to |subs|
        invariant out == AddAll(before, subs[..j])
      {
        assert subs[..j + 1][..j] == subs[..j];
        out := AddOnce(out, subs[j]);
      }
      assert subs[..|subs|] == subs;
    }
    assert order[..|order|] == order;
  }

  /** Delivery goes on after a handler that panics, and no payload is built for nobody. */
  method DeliverWith(table: Table, event: string, panics: set<nat>)
    returns (delivered: seq<Subscriber>, payloads: nat, notes: nat)
    ensures delivered == ListOf(table, event)
    ensures payloads == if delivered == [] then 0 else 1
    ensures notes == |Filter(delivered, (s: Subscriber) => s.id in panics)|
  {
    delivered, payloads, notes := [], 0, 0;
    if event !in table {
      return;
    }
    var subs := table[event];
    if subs == [] {
      return;
    }
    payloads := 1;
    for i := 0 to |subs|
      invariant delivered == subs[..i] && notes == |Filter(subs[..i], (s: Subscriber) => s.id in panics)|
    {
      assert subs[..i + 1][..i] == subs[..i];
      delivered := delivered + [subs[i]];
      if subs[i].id in panics {
        notes := notes + 1;
      }
    }
  }


  // ---------- the subscriptions of a table ----------

  predicate DistinctIds(subs: seq<Subscriber>) {
    forall i, j :: 0 <= i < j < |subs| ==> subs[i].id != subs[j].id
  }

  lemma {:induction false} AddAllWorks(out: seq<Subscriber>, subs: seq<Subscriber>, all: seq<Subscriber>)
    requires DistinctIds(out) && DistinctIds(all)
    requires forall s :: s in out || s in subs ==> s in all
    ensures DistinctIds(AddAll(out, subs))
    ensures forall s :: s in AddAll(out, subs) <==> s in out || s in subs
  {
    if subs != [] {
      var n := |subs| - 1;
      assert subs == subs[..n] + [subs[n]];
      AddAllWorks(out, subs[..n], all);
      AddOnceWorks(AddAll(out, subs[..n]), subs[n], all);
    }
  }

  lemma AddOnceWorks(out: seq<Subscriber>, s: Subscriber, all: seq<Subscriber>)
    requires DistinctIds(out) && DistinctIds(all) && s in all
    requires forall t :: t in out ==> t in all
    ensures DistinctIds(AddOnce(out, s))
    ensures forall t :: t in AddOnce(out, s) <==> t in out || t == s
  {
    if HasId(out, s.id) {
      var i :| 0 <= i < |out| && out[i].id == s.id;
      assert out[i] in all;
      assert out[i] == s;
    }
  }

  lemma {:induction false} ListForMembers(subs: seq<Subscriber>, event: string, s: Subscriber)
    ensures s in ListFor(subs, event) <==> s in subs && Times(s.events, event) > 0
  {
    if subs != [] {
      var n := |subs| - 1;
      assert subs == subs[..n] + [subs[n]];
      ListForMembers(subs[..n], event, s);
    }
  }

  lemma {:induction false} TimesPositive(events: seq<string>, event: string)
    ensures Times(events, event) > 0 <==> event in events
  {
    if events != [] {
      var n := |events| - 1;
      assert events == events[..n] + [events[n]];
      TimesPositive(events[..n], event);
    }
  }

  lemma {:induction false} SharedMembers(table: Table, order: seq<string>, subs: seq<Subscriber>)
    requires Indexes(table, subs) && DistinctIds(subs)
    ensures DistinctIds(SharedIn(table, order))
    ensures forall s :: s in SharedIn(table, order) <==> s in subs && HearsOneOf(s, order)
  {
    hide DistinctIds, AddAll, Times;
    if order == [] {
      NoIds();
    } else {
      var n := |order| - 1;
      var init, list := order[..n], ListOf(table, order[n]);
      SharedMembers(table, init, subs);
      forall s: Subscriber ensures s in list <==> s in subs && order[n] in s.events {
        ListForMembers(subs, order[n], s);
        TimesPositive(s.events, order[n]);
      }
      AddAllWorks(SharedIn(table, init), list, subs);
      assert order == init + [order[n]];
    }
  }

  lemma NoIds()
    ensures DistinctIds([])
  {
  }

  predicate HearsOneOf(s: Subscriber, order: seq<string>) {
    exists event :: event in order && event in s.events
  }

  /** `order` lists every key of the table. */
  predicate Enumerates(order: seq<string>, table: Table) {
    forall event :: event in table ==> event in order
  }

  /** Whatever the hash order, the table gives back exactly its subscriptions, once each. */
  lemma SharedGivesBack(table: Table, order: seq<string>, subs: seq<Subscriber>)
    requires Indexes(table, subs) && DistinctIds(subs) && Enumerates(order, table)
    ensures DistinctIds(SharedIn(table, order))
    ensures forall s :: s in SharedIn(table, order) <==> s in subs && s.events != []
  {
    hide DistinctIds, SharedIn, Times, ListFor;
    SharedMembers(table, order, subs);
    forall s | s in subs && s.events != [] ensures HearsOneOf(s, order) {
      var event := s.events[0];
      TimesPositive(s.events, event);
      ListForMembers(subs, event, s);
      assert s in ListOf(table, event);
    }
  }

  // ---------- lists of concatenated subscriptions ----------

  lemma {:induction false} ListForConcat(a: seq<Subscriber>, b: seq<Subscriber>, event: string)
    ensures ListFor(a + b, event) == ListFor(a, event) + ListFor(b, event)
  {
    if b == [] {
      assert a + b == a;
    } else {
      var n := |b| - 1;
      assert (a + b)[..|a + b| - 1] == a + b[..n];
      ListForConcat(a, b[..n], event);
    }
  }

  /** How often a subscriber hears an event. */
  lemma {:induction false} ListForCount(subs: seq<Subscriber>, event: string, s: Subscriber)
    requires DistinctIds(subs)
    ensures multiset(ListFor(subs, event))[s] == if s in subs then Times(s.events, event) else 0
  {
    if subs != [] {
      var n := |subs| - 1;
      var last := subs[n];
      assert subs == subs[..n] + [last];
      ListForCount(subs[..n], event, s);
      CopiesCount(last, Times(last.events, event), s);
      ListForUnrolled(subs, event);
    }
  }

  lemma ListForUnrolled(subs: seq<Subscriber>, event: string)
    requires subs != []
    ensures multiset(ListFor(subs, event)) ==
            multiset(ListFor(subs[..|subs| - 1], event)) +
            multiset(Copies(subs[|subs| - 1], Times(subs[|subs| - 1].events, event)))
  {
  }

  lemma {:induction false} CopiesCount(s: Subscriber, n: nat, t: Subscriber)
    ensures multiset(Copies(s, n))[t] == if t == s then n else 0
  {
    if n > 0 {
      CopiesCount(s, n - 1, t);
      CopiesSnoc(s, n - 1);
    }
  }

  /** Only the subscriptions themselves count, not their order. */
  lemma SameSubscribersSameCounts(a: seq<Subscriber>, b: seq<Subscriber>, event: string)
    requires DistinctIds(a) && DistinctIds(b)
    requires forall s: Subscriber :: s.events != [] ==> (s in a <==> s in b)
    ensures multiset(ListFor(a, event)) == multiset(ListFor(b, event))
  {
    hide DistinctIds, ListFor;
    forall s: Subscriber ensures multiset(ListFor(a, event))[s] == multiset(ListFor(b, event))[s] {
      ListForCount(a, event, s);
      ListForCount(b, event, s);
      TimesPositive(s.events, event);
    }
  }

  // ---------- who hears what ----------

  lemma {:induction false} TimesIsCount(events: seq<string>, event: string)
    ensures Times(events, event) == multiset(events)[event]
  {
    if events != [] {
      var n := |events| - 1;
      TimesIsCount(events[..n], event);
      assert events == events[..n] + [events[n]];
    }
  }

  /** An event reaches exactly those that name it, each as often as it does. */
  lemma HeardExactly(subs: seq<Subscriber>, event: string, s: Subscriber)
    requires DistinctIds(subs)
    ensures multiset(ListFor(subs, event))[s] == if s in subs then multiset(s.events)[event] else 0
  {
    hide DistinctIds, ListFor, Times;
    ListForCount(subs, event, s);
    TimesIsCount(s.events, event);
  }

  /** The one stands no later than the other. */
  predicate NoLater(subs: seq<Subscriber>, a: Subscriber, b: Subscriber) {
    exists k, l :: 0 <= k <= l < |subs| && subs[k] == a && subs[l] == b
  }

  lemma NoLaterGrows(subs: seq<Subscriber>, last: Subscriber, a: Subscriber, b: Subscriber)
    ensures NoLater(subs, a, b) ==> NoLater(subs + [last], a, b)
    ensures a in subs || a == last ==> NoLater(subs + [last], a, last)
  {
    var all := subs + [last];
    if NoLater(subs, a, b) {
      var k, l :| 0 <= k <= l < |subs| && subs[k] == a && subs[l] == b;
      assert all[k] == a && all[l] == b;
    }
    if a in subs || a == last {
      assert a in all;
      var k :| 0 <= k < |all| && all[k] == a;
      assert all[k] == a && all[|subs|] == last;
    }
  }

  /** And they hear it in the order in which they were given. */
  lemma {:induction false} HeardInOrder(subs: seq<Subscriber>, event: string)
    ensures var list := ListFor(subs, event);
            forall i, j :: 0 <= i < j < |list| ==> NoLater(subs, list[i], list[j])
  {
    hide NoLater;
    if subs != [] {
      var n := |subs| - 1;
      var init, last := subs[..n], subs[n];
      assert subs == init + [last];
      HeardInOrder(init, event);
      var list, more := ListFor(init, event), Copies(last, Times(last.events, event));
      forall i, j | 0 <= i < j < |list + more| ensures NoLater(subs, (list + more)[i], (list + more)[j]) {
        var a, b := (list + more)[i], (list + more)[j];
        NoLaterGrows(init, last, a, b);
        if i < |list| { ListForMembers(init, event, a); }
        assert j >= |list| ==> b == more[j - |list|];
        assert i >= |list| ==> a == more[i - |list|];
      }
    }
  }
}
