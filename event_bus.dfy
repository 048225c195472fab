/**
 * The in-process event bus: a registry of ((topic, event kind), handler)
 * entries that `subscribe` appends to and a subscription's `unsubscribe`
 * removes from, and `publish`, which hands each event to every entry whose
 * key is (topic, the event's exact kind).
 *
 * Handlers are opaque ids; calling one appends (handler, event) to a
 * delivery log, so the order of handler calls is part of the state.
 */
module Events {

  /** The event classes the application publishes. */
  datatype EventKind =
    | OrderPreparationStarted
    | OrderPreparationFinished
    | OrderPlaced
    | OrderAssigned
    | OrderPickedUp
    | OrderDelivered
    | CourierLocationUpdated
    | CourierShiftStarted
    | CourierShiftStopped
    | CourierAdded

  /** The list of publishable event classes, in the application's order. */
  function PublishableEvents(): (r: seq<EventKind>)
    ensures |r| == 10
    ensures forall i, j :: 0 <= i < j < |r| ==> r[i] != r[j]
  {
    [OrderPreparationStarted, OrderPreparationFinished, OrderPlaced, OrderAssigned, OrderPickedUp,
     OrderDelivered, CourierLocationUpdated, CourierShiftStarted, CourierShiftStopped, CourierAdded]
  }

  /** Every event kind is publishable. */
  lemma PublishableEventsCoverAllKinds()
    ensures forall k: EventKind :: k in PublishableEvents()
  {
    var r := PublishableEvents();
    forall k: EventKind
      ensures k in r
    {
      match k
      case OrderPreparationStarted => assert r[0] == k;
      case OrderPreparationFinished => assert r[1] == k;
      case OrderPlaced => assert r[2] == k;
      case OrderAssigned => assert r[3] == k;
      case OrderPickedUp => assert r[4] == k;
      case OrderDelivered => assert r[5] == k;
      case CourierLocationUpdated => assert r[6] == k;
      case CourierShiftStarted => assert r[7] == k;
      case CourierShiftStopped => assert r[8] == k;
      case CourierAdded => assert r[9] == k;
    }
  }

  type Topic = string

  const DefaultTopic: Topic := "default"

  type HandlerId = nat

  /** An event: its runtime class and an id standing for its fields. */
  datatype DomainEvent = DomainEvent(kind: EventKind, payload: nat)

  datatype Key = Key(topic: Topic, kind: EventKind)

  datatype Entry = Entry(key: Key, handler: HandlerId)

  /** One call of `handler` with `event`. */
  datatype Delivery = Delivery(handler: HandlerId, event: DomainEvent)

  /** The entries a subscription removes when it is cancelled. */
  datatype Subscription = Subscription(entries: seq<Entry>)

  /** The handler calls for one event published on `topic`, one per matching
      entry, in registration order. */
  function DeliverOne(entries: seq<Entry>, event: DomainEvent, topic: Topic): (r: seq<Delivery>)
    ensures |r| <= |entries|
    ensures forall k :: 0 <= k < |r| ==> r[k].event == event && Entry(Key(topic, event.kind), r[k].handler) in entries
  {
    if entries == [] then []
    else
      var front := DeliverOne(entries[..|entries| - 1], event, topic);
      var last := entries[|entries| - 1];
      assert forall e :: e in entries[..|entries| - 1] ==> e in entries;
      front + if last.key == Key(topic, event.kind) then [Delivery(last.handler, event)] else []
  }

  /** The handler calls of `publish(events, topic)`: the events in list
      order, each to its matching entries. */
  function Dispatch(entries: seq<Entry>, events: seq<DomainEvent>, topic: Topic): seq<Delivery> {
    if events == [] then []
    else Dispatch(entries, events[..|events| - 1], topic) + DeliverOne(entries, events[|events| - 1], topic)
  }

  /** The position of the first entry equal to `e`, or -1 when there is none. */
  function IndexOfEntry(entries: seq<Entry>, e: Entry): (i: int)
    ensures -1 <= i < |entries|
    ensures i == -1 <==> e !in entries
    ensures i != -1 ==> entries[i] == e && e !in entries[..i]
  {
    if entries == [] then -1
    else if entries[0] == e then 0
    else
      var i := IndexOfEntry(entries[1..], e);
      if i == -1 then -1
      else
        assert entries[..i + 1] == [entries[0]] + entries[1..][..i];
        i + 1
  }

  /** An entry appended after entries that do not contain it is found at
      the position where it was appended. */
  lemma {:induction false} IndexOfAppendedEntry(entries: seq<Entry>, rest: seq<Entry>, e: Entry)
    requires e !in entries
    requires rest != [] && rest[0] == e
    ensures IndexOfEntry(entries + rest, e) == |entries|
  {
    if entries == [] {
      assert entries + rest == rest;
    } else {
      IndexOfAppendedEntry(entries[1..], rest, e);
      assert (entries + rest)[1..] == entries[1..] + rest;
    }
  }

  /** The registry after `remove(e)`: the first entry equal to `e`, if any,
      is taken out. */
  function RemoveFirst(entries: seq<Entry>, e: Entry): seq<Entry> {
    var i := IndexOfEntry(entries, e);
    if i == -1 then entries else entries[..i] + entries[i + 1..]
  }

  /** The registry after the subscription of `removed` is cancelled: one
      `remove` per entry, in order. */
  function RemoveEach(entries: seq<Entry>, removed: seq<Entry>): seq<Entry> {
    if removed == [] then entries
    else RemoveFirst(RemoveEach(entries, removed[..|removed| - 1]), removed[|removed| - 1])
  }

  // Dispatch

  /** A handler is called for an event exactly as many times as it has
      entries under the event's topic and kind. */
  lemma {:induction false} DeliverOneCount(entries: seq<Entry>, event: DomainEvent, topic: Topic, h: HandlerId)
    ensures multiset(DeliverOne(entries, event, topic))[Delivery(h, event)]
            == multiset(entries)[Entry(Key(topic, event.kind), h)]
  {
    if entries != [] {
      var front := entries[..|entries| - 1];
      DeliverOneCount(front, event, topic, h);
      assert entries == front + [entries[|entries| - 1]];
    }
  }

  /** Registration order is delivery order: the calls for the entries of
      `a + b` are those for `a` followed by those for `b`. */
  lemma {:induction false} DeliverOneConcat(a: seq<Entry>, b: seq<Entry>, event: DomainEvent, topic: Topic)
    ensures DeliverOne(a + b, event, topic) == DeliverOne(a, event, topic) + DeliverOne(b, event, topic)
  {
    if b != [] {
      var front := b[..|b| - 1];
      DeliverOneConcat(a, front, event, topic);
      assert (a + b)[..|a + b| - 1] == a + front;
      assert (a + b)[|a + b| - 1] == b[|b| - 1];
    } else {
      assert a + b == a;
    }
  }

  /** Events are handled in list order: publishing `a + b` makes the calls of
      publishing `a` and then those of publishing `b`. */
  lemma {:induction false} DispatchConcat(entries: seq<Entry>, a: seq<DomainEvent>, b: seq<DomainEvent>, topic: Topic)
    ensures Dispatch(entries, a + b, topic) == Dispatch(entries, a, topic) + Dispatch(entries, b, topic)
  {
    if b != [] {
      var front := b[..|b| - 1];
      DispatchConcat(entries, a, front, topic);
      assert (a + b)[..|a + b| - 1] == a + front;
      assert (a + b)[|a + b| - 1] == b[|b| - 1];
    } else {
      assert a + b == a;
    }
  }

  /** Every call is of a published event, to a handler that has an entry for
      that event's topic and kind. */
  lemma {:induction false} DispatchSound(entries: seq<Entry>, events: seq<DomainEvent>, topic: Topic)
    ensures forall d :: d in Dispatch(entries, events, topic) ==>
              d.event in events && Entry(Key(topic, d.event.kind), d.handler) in entries
  {
    if events != [] {
      var front := events[..|events| - 1];
      DispatchSound(entries, front, topic);
      forall d | d in Dispatch(entries, events, topic)
        ensures d.event in events && Entry(Key(topic, d.event.kind), d.handler) in entries
      {
        if d in Dispatch(entries, front, topic) {
          assert d.event in front;
        } else {
          var one := DeliverOne(entries, events[|events| - 1], topic);
          assert d in one;
          var k :| 0 <= k < |one| && one[k] == d;
        }
      }
    }
  }

  /** Publishing reaches no handler that has no entry for the topic and the
      kind of one of the events, such as one unsubscribed or not yet
      subscribed. */
  lemma NoDeliveryWithoutEntry(entries: seq<Entry>, events: seq<DomainEvent>, topic: Topic, h: HandlerId)
    requires forall e, ev :: e in entries && ev in events && e.handler == h ==> e.key != Key(topic, ev.kind)
    ensures forall d :: d in Dispatch(entries, events, topic) ==> d.handler != h
  {
    DispatchSound(entries, events, topic);
  }

  // Unsubscribe

  /** `remove` takes away one copy of the entry, if there is one, and leaves
      every other entry's count alone. */
  lemma RemoveFirstMultiset(entries: seq<Entry>, e: Entry)
    ensures multiset(RemoveFirst(entries, e)) == multiset(entries) - multiset{e}
  {
    var i := IndexOfEntry(entries, e);
    if i != -1 {
      assert entries == entries[..i] + [e] + entries[i + 1..];
    } else {
      assert multiset(entries)[e] == 0;
    }
  }

  /** Taking away `b` and then `c` takes away `b + c`. */
  lemma MultisetDifferenceTwice(a: multiset<Entry>, b: multiset<Entry>, c: multiset<Entry>)
    ensures a - b - c == a - (b + c)
  {
    assert forall e :: (a - b - c)[e] == (a - (b + c))[e];
  }

  /** Cancelling a subscription takes away one copy of each of its entries,
      as far as there are copies. */
  lemma {:induction false} RemoveEachMultiset(entries: seq<Entry>, removed: seq<Entry>)
    ensures multiset(RemoveEach(entries, removed)) == multiset(entries) - multiset(removed)
  {
    if removed != [] {
      var front := removed[..|removed| - 1];
      var last := removed[|removed| - 1];
      RemoveEachMultiset(entries, front);
      RemoveFirstMultiset(RemoveEach(entries, front), last);
      assert removed == front + [last];
      MultisetDifferenceTwice(multiset(entries), multiset(front), multiset{last});
    }
  }

  /** Cancelling the first `k` of some appended entries, none of which was
      registered before, leaves the registry followed by the remaining
      appended entries. */
  lemma {:induction false} RemoveEachAppended(entries: seq<Entry>, added: seq<Entry>, k: nat)
    requires k <= |added|
    requires forall e :: e in added ==> e !in entries
    ensures RemoveEach(entries + added, added[..k]) == entries + added[k..]
  {
    if k > 0 {
      RemoveEachAppended(entries, added, k - 1);
      var prefix := added[..k];
      assert prefix[..k - 1] == added[..k - 1] && prefix[k - 1] == added[k - 1];
      var rest := added[k - 1..];
      assert rest[1..] == added[k..];
      RemoveFirstAppended(entries, rest, added[k - 1]);
    }
  }

  /** `remove` of an entry appended after entries that do not contain it
      takes out exactly that appended copy. */
  lemma RemoveFirstAppended(entries: seq<Entry>, rest: seq<Entry>, e: Entry)
    requires e !in entries
    requires rest != [] && rest[0] == e
    ensures RemoveFirst(entries + rest, e) == entries + rest[1..]
  {
    var s := entries + rest;
    IndexOfAppendedEntry(entries, rest, e);
    assert s[..|entries|] == entries && s[|entries| + 1..] == rest[1..];
  }

  /** Subscribing and then cancelling always restores the registry's
      contents, and restores the exact sequence when no entry of the
      subscription was registered already. */
  lemma SubscribeThenUnsubscribe(entries: seq<Entry>, added: seq<Entry>)
    ensures multiset(RemoveEach(entries + added, added)) == multiset(entries)
    ensures (forall e :: e in added ==> e !in entries) ==> RemoveEach(entries + added, added) == entries
  {
    RemoveEachMultiset(entries + added, added);
    if forall e :: e in added ==> e !in entries {
      RemoveEachAppended(entries, added, |added|);
      assert added[..|added|] == added && added[|added|..] == [];
    }
  }

  /** A second cancellation of a subscription removes nothing when the
      first one removed every copy of its entries. */
  lemma UnsubscribeTwice(entries: seq<Entry>, removed: seq<Entry>)
    requires forall e :: e in removed ==> multiset(entries)[e] <= multiset(removed)[e]
    ensures RemoveEach(RemoveEach(entries, removed), removed) == RemoveEach(entries, removed)
  {
    var once := RemoveEach(entries, removed);
    RemoveEachMultiset(entries, removed);
    forall e | e in removed
      ensures e !in once
    {
      assert multiset(once)[e] == 0;
    }
    RemoveEachAbsent(once, removed);
  }

  /** Cancelling entries that are not registered leaves the registry alone. */
  lemma {:induction false} RemoveEachAbsent(entries: seq<Entry>, removed: seq<Entry>)
    requires forall e :: e in removed ==> e !in entries
    ensures RemoveEach(entries, removed) == entries
  {
    if removed != [] {
      RemoveEachAbsent(entries, removed[..|removed| - 1]);
    }
  }

  class EventBus {
    /** The registry, oldest entry first. */
    var subscribers: seq<Entry>
    /** Every handler call so far, oldest first. */
    var deliveries: seq<Delivery>

    constructor ()
      ensures subscribers == [] && deliveries == []
    {
      subscribers := [];
      deliveries := [];
    }

    method Subscribe(kind: EventKind, handler: HandlerId, topic: Topic := DefaultTopic) returns (s: Subscription)
      modifies this
      ensures subscribers == old(subscribers) + [Entry(Key(topic, kind), handler)]
      ensures deliveries == old(deliveries)
      ensures s == Subscription([Entry(Key(topic, kind), handler)])
    {
      var item := Entry(Key(topic, kind), handler);
      subscribers := subscribers + [item];
      s := Subscription([item]);
    }

    /** One `subscribe` per listed kind, with the same topic and handler; the
        subscription returned cancels all of them. */
    method SubscribeAll(kinds: seq<EventKind>, handler: HandlerId, topic: Topic := DefaultTopic)
      returns (s: Subscription)
      modifies this
      ensures |s.entries| == |kinds|
      ensures forall i :: 0 <= i < |kinds| ==> s.entries[i] == Entry(Key(topic, kinds[i]), handler)
      ensures subscribers == old(subscribers) + s.entries
      ensures deliveries == old(deliveries)
    {
      var entries: seq<Entry> := [];
      for i := 0 to |kinds|
        invariant |entries| == i
        invariant forall j :: 0 <= j < i ==> entries[j] == Entry(Key(topic, kinds[j]), handler)
        invariant subscribers == old(subscribers) + entries
        invariant deliveries == old(deliveries)
      {
        var one := Subscribe(kinds[i], handler, topic);
        entries := entries + one.entries;
      }
      s := Subscription(entries);
    }

    /** `unsubscribe`: one `remove` per entry of the subscription. */
    method Unsubscribe(s: Subscription)
      modifies this
      ensures subscribers == RemoveEach(old(subscribers), s.entries)
      ensures deliveries == old(deliveries)
    {
      for i := 0 to |s.entries|
        invariant subscribers == RemoveEach(old(subscribers), s.entries[..i])
        invariant deliveries == old(deliveries)
      {
        assert s.entries[..i + 1][..i] == s.entries[..i];
        subscribers := RemoveFirst(subscribers, s.entries[i]);
      }
      assert s.entries[..|s.entries|] == s.entries;
    }

    /** The inner loop of `publish`: the matching entries of one event, in
        registration order. */
    method Notify(event: DomainEvent, topic: Topic)
      modifies this`deliveries
      ensures deliveries == old(deliveries) + DeliverOne(subscribers, event, topic)
    {
      var key := Key(topic, event.kind);
      for j := 0 to |subscribers|
        invariant deliveries == old(deliveries) + DeliverOne(subscribers[..j], event, topic)
      {
        assert subscribers[..j + 1][..j] == subscribers[..j];
        if subscribers[j].key == key {
          deliveries := deliveries + [Delivery(subscribers[j].handler, event)];
        }
      }
      assert subscribers[..|subscribers|] == subscribers;
    }

    /** `publish`: for each event in order, every entry whose key is
        (topic, the event's kind) is called, in registration order. The
        registry is not changed. */
    method Publish(events: seq<DomainEvent>, topic: Topic := DefaultTopic)
      modifies this`deliveries
      ensures deliveries == old(deliveries) + Dispatch(subscribers, events, topic)
    {
      ghost var registry := subscribers;
      for i := 0 to |events|
        invariant deliveries == old(deliveries) + Dispatch(registry, events[..i], topic)
      {
        ghost var done := events[..i + 1];
        assert done[..i] == events[..i] && done[i] == events[i];
        assert Dispatch(registry, done, topic)
            == Dispatch(registry, events[..i], topic) + DeliverOne(registry, events[i], topic);
        Notify(events[i], topic);
      }
      assert events[..|events|] == events;
    }
  }
}
