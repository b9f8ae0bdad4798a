/** `DataEventMessageBoard` of reflector/events.py: a bounded history of
    published events and a routing table from filter objects to the
    subscriber objects registered under each, in insertion order.

    Filters and subscribers are keyed by object identity, as a Python dict
    and `list.remove` treat objects without `__eq__`/`__hash__` (the
    filters' `__equals__` is never called). A `FilterId` or `SubId` stands
    for one object. Every operation is atomic and sequential; the locks of
    the source are not modelled. Each `notify` call is recorded, in order,
    in a ghost delivery log; what a notification does to a subscriber is
    given by `Subscribers.Notify`. */
module MessageBoard {
  import opened Wrappers
  import opened Events

  /** A subscriber object, by identity. */
  type SubId = nat

  /** A filter object, by identity. */
  type FilterId = nat

  /** One `subscriber.notify(event)` call. */
  type Delivery = (SubId, Event)

  /** `deque(maxlen=50)`: the history keeps at most this many events. */
  const Capacity: nat := 50

  /** One routing-table entry: a filter object and its subscriber list. */
  datatype Bucket = Bucket(key: FilterId, filter: Filter, subscribers: seq<SubId>)

  /** The errors the board's operations raise: every operation on a board
      that has not been started fails on its `None` state, and
      `list.remove` raises when the subscriber is not in the bucket. */
  datatype BoardError = NotStarted | NotSubscribed

  // ---------------------------------------------------------------------
  // History

  /** The most recent `min(|p|, n)` events of `p`, oldest first. */
  function Latest(p: seq<Event>, n: nat): (r: seq<Event>)
    ensures |r| == if |p| <= n then |p| else n
  {
    if |p| <= n then p else p[|p| - n..]
  }

  /** The window is the tail of `p`: nothing but the newest events, in
      publication order. */
  lemma LatestIsSuffix(p: seq<Event>, n: nat)
    ensures Latest(p, n) == p[|p| - |Latest(p, n)|..]
  {
  }

  /** `deque.append` on a deque with `maxlen=Capacity`: the new event goes at
      the end, and if the deque was full its oldest event is dropped. */
  function Window(h: seq<Event>, e: Event): (r: seq<Event>)
    requires |h| <= Capacity
    ensures |r| == if |h| < Capacity then |h| + 1 else Capacity
    ensures r == (h + [e])[|h| + 1 - |r|..]
  {
    if |h| < Capacity then h + [e] else h[1..] + [e]
  }

  /** Appending to the window of the latest events gives the window of the
      latest events after one more publish. */
  lemma WindowOfLatest(p: seq<Event>, e: Event)
    ensures Window(Latest(p, Capacity), e) == Latest(p + [e], Capacity)
  {
    var h := Latest(p, Capacity);
    if |p| >= Capacity {
      assert h + [e] == (p + [e])[|p| - Capacity..];
    }
  }

  // ---------------------------------------------------------------------
  // Routing table

  /** The position of the bucket whose key is `key`, if there is one. */
  function Find(t: seq<Bucket>, key: FilterId): (r: Option<nat>)
    ensures r.Some? ==> r.value < |t| && t[r.value].key == key
    ensures r.None? ==> forall i :: 0 <= i < |t| ==> t[i].key != key
    decreases |t|
  {
    if t == [] then None
    else if t[0].key == key then Some(0)
    else match Find(t[1..], key)
      case Some(i) => Some(i + 1)
      case None => None
  }

  /** A dict holds each key once. */
  predicate UniqueKeys(t: seq<Bucket>) {
    forall i, j :: 0 <= i < j < |t| ==> t[i].key != t[j].key
  }

  /** `key` and `f` describe the same filter object: a bucket under `key`
      holds the filter `f`. */
  predicate KeyNames(t: seq<Bucket>, key: FilterId, f: Filter) {
    forall i :: 0 <= i < |t| && t[i].key == key ==> t[i].filter == f
  }

  /** A key that no bucket uses: the identity of a newly made filter. */
  function FreshKey(t: seq<Bucket>): (k: FilterId)
    ensures forall i :: 0 <= i < |t| ==> t[i].key < k
    decreases |t|
  {
    if t == [] then 0
    else
      var k := FreshKey(t[..|t| - 1]);
      if t[|t| - 1].key < k then k else t[|t| - 1].key + 1
  }

  /** `filter_subscriber_map[f].append(s)` on a `defaultdict(list)`: `s`
      goes at the end of the bucket of `key`, which is created at the end of
      the table when absent; no other bucket changes. */
  function Register(t: seq<Bucket>, key: FilterId, f: Filter, s: SubId): (r: seq<Bucket>)
    ensures Find(t, key).Some? ==>
              var i := Find(t, key).value;
              && |r| == |t|
              && r[i] == t[i].(subscribers := t[i].subscribers + [s])
    ensures Find(t, key).None? ==> |r| == |t| + 1 && r[|t|] == Bucket(key, f, [s])
    ensures forall i :: 0 <= i < |t| && t[i].key != key ==> r[i] == t[i]
    ensures UniqueKeys(t) ==> UniqueKeys(r)
  {
    match Find(t, key)
    case Some(i) => t[i := t[i].(subscribers := t[i].subscribers + [s])]
    case None => t + [Bucket(key, f, [s])]
  }

  /** The position of the first occurrence of `x`, the one `list.remove`
      scans to. */
  function FirstIndex(xs: seq<SubId>, x: SubId): (k: nat)
    requires x in xs
    ensures k < |xs| && xs[k] == x && x !in xs[..k]
    decreases |xs|
  {
    if xs[0] == x then 0
    else
      var k := FirstIndex(xs[1..], x);
      assert xs[..k + 1] == [xs[0]] + xs[1..][..k];
      k + 1
  }

  /** `list.remove(x)`: drops the first occurrence of `x` and keeps the
      order of the other entries. */
  function RemoveFirst(xs: seq<SubId>, x: SubId): (r: seq<SubId>)
    requires x in xs
    ensures |r| == |xs| - 1
    ensures multiset(r) == multiset(xs) - multiset{x}
    ensures var k := FirstIndex(xs, x); r[..k] == xs[..k] && r[k..] == xs[k + 1..]
  {
    var k := FirstIndex(xs, x);
    assert xs == xs[..k] + [x] + xs[k + 1..];
    xs[..k] + xs[k + 1..]
  }

  /** `unsubscribe(s, f)` on the table: nothing happens when no bucket has
      the key; otherwise the first occurrence of `s` leaves that bucket, and
      it is an error when `s` is not in it. */
  function Unregister(t: seq<Bucket>, key: FilterId, s: SubId): (r: Result<seq<Bucket>, BoardError>)
    ensures Find(t, key).None? ==> r == Success(t)
    ensures Find(t, key).Some? ==>
              var i := Find(t, key).value;
              if s in t[i].subscribers then
                && r.Success?
                && |r.value| == |t|
                && r.value[i] == t[i].(subscribers := RemoveFirst(t[i].subscribers, s))
                && forall j :: 0 <= j < |t| && j != i ==> r.value[j] == t[j]
              else r == Failure(NotSubscribed)
    ensures r.Success? && UniqueKeys(t) ==> UniqueKeys(r.value)
  {
    match Find(t, key)
    case None => Success(t)
    case Some(i) =>
      if s in t[i].subscribers then Success(t[i := t[i].(subscribers := RemoveFirst(t[i].subscribers, s))])
      else Failure(NotSubscribed)
  }

  // ---------------------------------------------------------------------
  // Deliveries

  /** One `notify(e)` per entry of `subs`, in registration order. */
  function Fanout(subs: seq<SubId>, e: Event): (r: seq<Delivery>)
    ensures |r| == |subs|
    decreases |subs|
  {
    if subs == [] then [] else Fanout(subs[..|subs| - 1], e) + [(subs[|subs| - 1], e)]
  }

  /** The `k`-th notification of a fan-out goes to the `k`-th entry of the
      bucket: registration order. */
  lemma {:induction false} FanoutAt(subs: seq<SubId>, e: Event, k: nat)
    requires k < |subs|
    ensures Fanout(subs, e)[k] == (subs[k], e)
    decreases |subs|
  {
    if k < |subs| - 1 {
      FanoutAt(subs[..|subs| - 1], e, k);
    }
  }

  /** The `notify` calls one bucket receives for `e`: all of its entries
      when its filter passes `e`, none otherwise. */
  function BucketDeliveries(b: Bucket, e: Event): seq<Delivery> {
    if Passes(b.filter, e) then Fanout(b.subscribers, e) else []
  }

  /** `broadcast_event_to_subscribers(e)`: the buckets in table order. */
  function Broadcast(t: seq<Bucket>, e: Event): seq<Delivery>
    decreases |t|
  {
    if t == [] then [] else Broadcast(t[..|t| - 1], e) + BucketDeliveries(t[|t| - 1], e)
  }

  /** The replay of `subscribe`: one `notify` to `s` per event, in order. */
  function Replay(s: SubId, es: seq<Event>): (r: seq<Delivery>)
    ensures |r| == |es|
    decreases |es|
  {
    if es == [] then [] else Replay(s, es[..|es| - 1]) + [(s, es[|es| - 1])]
  }

  /** The events that the log delivered to `s`, in order. */
  function DeliveriesTo(log: seq<Delivery>, s: SubId): (r: seq<Event>)
    ensures |r| <= |log|
    decreases |log|
  {
    if log == [] then []
    else
      var last := log[|log| - 1];
      DeliveriesTo(log[..|log| - 1], s) + (if last.0 == s then [last.1] else [])
  }

  /** `n` copies of `e`. */
  function Copies(e: Event, n: nat): (r: seq<Event>)
    ensures |r| == n
    ensures forall x :: x in r ==> x == e
  {
    if n == 0 then [] else Copies(e, n - 1) + [e]
  }

  /** How many times `s` stands in a bucket of `t` whose filter passes `e`. */
  function Occurrences(t: seq<Bucket>, e: Event, s: SubId): nat
    decreases |t|
  {
    if t == [] then 0 else Occurrences(t[..|t| - 1], e, s) + Contribution(t[|t| - 1], e, s)
  }

  function Contribution(b: Bucket, e: Event, s: SubId): nat {
    if Passes(b.filter, e) then multiset(b.subscribers)[s] else 0
  }

  lemma {:induction false} CopiesAdd(e: Event, m: nat, n: nat)
    ensures Copies(e, m + n) == Copies(e, m) + Copies(e, n)
    decreases n
  {
    if n > 0 {
      CopiesAdd(e, m, n - 1);
    }
  }

  lemma {:induction false} DeliveriesToAppend(a: seq<Delivery>, b: seq<Delivery>, s: SubId)
    ensures DeliveriesTo(a + b, s) == DeliveriesTo(a, s) + DeliveriesTo(b, s)
    decreases |b|
  {
    if b == [] {
      assert a + b == a;
    } else {
      assert (a + b)[..|a + b| - 1] == a + b[..|b| - 1];
      DeliveriesToAppend(a, b[..|b| - 1], s);
    }
  }

  lemma {:induction false} FanoutTo(subs: seq<SubId>, e: Event, s: SubId)
    ensures DeliveriesTo(Fanout(subs, e), s) == Copies(e, multiset(subs)[s])
    decreases |subs|
  {
    if subs != [] {
      var front: seq<SubId> := subs[..|subs| - 1];
      var last: SubId := subs[|subs| - 1];
      FanoutTo(front, e, s);
      DeliveriesToAppend(Fanout(front, e), [(last, e)], s);
      assert subs == front + [last];
      assert multiset(subs)[s] == multiset(front)[s] + (if last == s then 1 else 0);
      CopiesAdd(e, multiset(front)[s], if last == s then 1 else 0);
    }
  }

  /** Broadcast delivers `e` to `s` once per entry of `s` in a bucket whose
      filter passes `e`, and nothing else. */
  lemma {:induction false} BroadcastTo(t: seq<Bucket>, e: Event, s: SubId)
    ensures DeliveriesTo(Broadcast(t, e), s) == Copies(e, Occurrences(t, e, s))
    decreases |t|
  {
    if t != [] {
      var front, last := t[..|t| - 1], t[|t| - 1];
      BroadcastTo(front, e, s);
      DeliveriesToAppend(Broadcast(front, e), BucketDeliveries(last, e), s);
      BucketDeliveriesTo(last, e, s);
      CopiesAdd(e, Occurrences(front, e, s), Contribution(last, e, s));
    }
  }

  /** One bucket delivers `e` to `s` once per entry of `s`, if its filter
      passes `e`. */
  lemma BucketDeliveriesTo(b: Bucket, e: Event, s: SubId)
    ensures DeliveriesTo(BucketDeliveries(b, e), s) == Copies(e, Contribution(b, e, s))
  {
    if Passes(b.filter, e) {
      FanoutTo(b.subscribers, e, s);
    }
  }

  /** `s` stands in some passing bucket exactly when it has a positive
      occurrence count. */
  lemma {:induction false} OccurrencesPositive(t: seq<Bucket>, e: Event, s: SubId)
    ensures Occurrences(t, e, s) > 0 <==>
              exists i :: 0 <= i < |t| && Passes(t[i].filter, e) && s in t[i].subscribers
    decreases |t|
  {
    if t != [] {
      var front, last := t[..|t| - 1], t[|t| - 1];
      OccurrencesPositive(front, e, s);
      if exists i :: 0 <= i < |front| && Passes(front[i].filter, e) && s in front[i].subscribers {
        var i :| 0 <= i < |front| && Passes(front[i].filter, e) && s in front[i].subscribers;
        assert t[i] == front[i];
      }
      if exists i :: 0 <= i < |t| && Passes(t[i].filter, e) && s in t[i].subscribers {
        var i :| 0 <= i < |t| && Passes(t[i].filter, e) && s in t[i].subscribers;
        if i < |front| {
          assert front[i] == t[i];
        }
      }
    }
  }

  /** Publishing reaches `s` exactly when some bucket whose filter passes
      the event lists `s`. */
  lemma BroadcastReaches(t: seq<Bucket>, e: Event, s: SubId)
    ensures DeliveriesTo(Broadcast(t, e), s) != [] <==>
              exists i :: 0 <= i < |t| && Passes(t[i].filter, e) && s in t[i].subscribers
  {
    BroadcastTo(t, e, s);
    OccurrencesPositive(t, e, s);
  }

  /** Every delivery of a broadcast carries the published event. */
  lemma {:induction false} BroadcastCarriesEvent(t: seq<Bucket>, e: Event, d: Delivery)
    requires d in Broadcast(t, e)
    ensures d.1 == e
    decreases |t|
  {
    var front, last := t[..|t| - 1], t[|t| - 1];
    if d in Broadcast(front, e) {
      BroadcastCarriesEvent(front, e, d);
    } else {
      FanoutCarriesEvent(last.subscribers, e, d);
    }
  }

  lemma {:induction false} FanoutCarriesEvent(subs: seq<SubId>, e: Event, d: Delivery)
    requires d in Fanout(subs, e)
    ensures d.1 == e
    decreases |subs|
  {
    if d != (subs[|subs| - 1], e) {
      FanoutCarriesEvent(subs[..|subs| - 1], e, d);
    }
  }

  /** Replacing one bucket changes the count by the difference of the two
      buckets' contributions. */
  lemma {:induction false} OccurrencesUpdate(t: seq<Bucket>, i: nat, b: Bucket, e: Event, s: SubId)
    requires i < |t|
    ensures Occurrences(t[i := b], e, s) + Contribution(t[i], e, s) == Occurrences(t, e, s) + Contribution(b, e, s)
    decreases |t|
  {
    var u := t[i := b];
    if i == |t| - 1 {
      assert u[..|u| - 1] == t[..|t| - 1];
    } else {
      assert u[..|u| - 1] == t[..|t| - 1][i := b];
      OccurrencesUpdate(t[..|t| - 1], i, b, e, s);
    }
  }

  lemma OccurrencesAppend(t: seq<Bucket>, b: Bucket, e: Event, s: SubId)
    ensures Occurrences(t + [b], e, s) == Occurrences(t, e, s) + Contribution(b, e, s)
  {
    assert (t + [b])[..|t|] == t;
  }

  /** Subscribing `s` under `key` adds one occurrence of `s`, on the events
      its filter passes, and changes no other subscriber's occurrences. */
  lemma OccurrencesAfterRegister(t: seq<Bucket>, key: FilterId, f: Filter, s: SubId, e: Event, x: SubId)
    requires KeyNames(t, key, f)
    ensures Occurrences(Register(t, key, f, s), e, x) ==
              Occurrences(t, e, x) + (if x == s && Passes(f, e) then 1 else 0)
  {
    match Find(t, key)
    case Some(i) =>
      var b := t[i].(subscribers := t[i].subscribers + [s]);
      assert multiset(b.subscribers) == multiset(t[i].subscribers) + multiset{s};
      OccurrencesUpdate(t, i, b, e, x);
    case None =>
      OccurrencesAppend(t, Bucket(key, f, [s]), e, x);
  }

  /** A successful unsubscribe under `key` removes one occurrence of `s`, on
      the events the filter of that bucket passes, and changes no other
      subscriber's occurrences. */
  lemma OccurrencesAfterUnregister(t: seq<Bucket>, key: FilterId, s: SubId, e: Event, x: SubId)
    requires Unregister(t, key, s).Success?
    ensures Occurrences(Unregister(t, key, s).value, e, x) ==
              Occurrences(t, e, x)
              - (if x == s && Find(t, key).Some? && Passes(t[Find(t, key).value].filter, e) then 1 else 0)
  {
    match Find(t, key)
    case None =>
    case Some(i) =>
      var b := t[i].(subscribers := RemoveFirst(t[i].subscribers, s));
      assert Unregister(t, key, s).value == t[i := b];
      OccurrencesUpdate(t, i, b, e, x);
  }

  /** A subscriber listed nowhere starts receiving each later event its
      filter passes exactly once after subscribing. */
  lemma NewSubscriberReceivesOnce(t: seq<Bucket>, key: FilterId, f: Filter, s: SubId, e: Event)
    requires KeyNames(t, key, f)
    requires forall i :: 0 <= i < |t| ==> s !in t[i].subscribers
    ensures DeliveriesTo(Broadcast(Register(t, key, f, s), e), s) == if Passes(f, e) then [e] else []
  {
    OccurrencesPositive(t, e, s);
    OccurrencesAfterRegister(t, key, f, s, e, s);
    BroadcastTo(Register(t, key, f, s), e, s);
    assert Copies(e, 1) == [e];
  }

  /** A subscriber listed once, in one bucket, receives nothing from later
      broadcasts after it is unsubscribed from that bucket. */
  lemma UnsubscribedReceivesNothing(t: seq<Bucket>, key: FilterId, s: SubId, e: Event)
    requires Find(t, key).Some?
    requires multiset(t[Find(t, key).value].subscribers)[s] == 1
    requires forall i :: 0 <= i < |t| && i != Find(t, key).value ==> s !in t[i].subscribers
    ensures Unregister(t, key, s).Success?
    ensures DeliveriesTo(Broadcast(Unregister(t, key, s).value, e), s) == []
  {
    var i := Find(t, key).value;
    assert s in multiset(t[i].subscribers);
    var u := Unregister(t, key, s).value;
    assert multiset(u[i].subscribers)[s] == 0;
    forall j | 0 <= j < |u| ensures s !in u[j].subscribers {
      if j == i {
        assert s !in multiset(u[i].subscribers);
      }
    }
    OccurrencesPositive(u, e, s);
    BroadcastTo(u, e, s);
  }

  /** What a replay delivers: the replayed events, to the new subscriber
      only. */
  lemma {:induction false} ReplayTo(s: SubId, es: seq<Event>, x: SubId)
    ensures DeliveriesTo(Replay(s, es), x) == if x == s then es else []
    decreases |es|
  {
    if es != [] {
      var front := es[..|es| - 1];
      ReplayTo(s, front, x);
      DeliveriesToAppend(Replay(s, front), [(s, es[|es| - 1])], x);
      assert front + [es[|es| - 1]] == es;
    }
  }

  /** One more step of the replay loop of `subscribe`. */
  lemma ReplayMatchingStep(s: SubId, f: Filter, h: seq<Event>, i: nat)
    requires i < |h|
    ensures Replay(s, Matching(f, h[..i + 1])) ==
              Replay(s, Matching(f, h[..i])) + (if Passes(f, h[i]) then [(s, h[i])] else [])
  {
    assert h[..i + 1][..i] == h[..i];
    var m := Matching(f, h[..i]);
    if Passes(f, h[i]) {
      assert (m + [h[i]])[..|m|] == m;
    } else {
      assert Matching(f, h[..i + 1]) == m;
    }
  }

  // ---------------------------------------------------------------------
  // The board

  class Board {
    /** Whether `start` has run: before it, the history and the table are `None`. */
    var started: bool
    /** The `queue` deque, oldest event first. */
    var history: seq<Event>
    /** `filter_subscriber_map`, in key insertion order. */
    var table: seq<Bucket>
    /** Every event published so far, oldest first. */
    ghost var published: seq<Event>
    /** Every `notify` call so far, in the order they were made. */
    ghost var log: seq<Delivery>

    /** The board's invariant: nothing exists before `start`, the history is
        always the latest `Capacity` published events, and each filter
        object has one bucket. */
    ghost predicate Valid()
      reads this
    {
      && (!started ==> history == [] && table == [] && published == [])
      && history == Latest(published, Capacity)
      && UniqueKeys(table)
    }

    /** The class as loaded: `queue` and `filter_subscriber_map` are `None`. */
    constructor ()
      ensures Valid()
      ensures !started && history == [] && table == [] && published == [] && log == []
    {
      started := false;
      history := [];
      table := [];
      published := [];
      log := [];
      assert Latest([], Capacity) == [];
    }

    /** `start()`: the first call makes an empty history and an empty table;
        later calls change nothing. */
    method Start()
      requires Valid()
      modifies this
      ensures Valid()
      ensures old(started) ==> unchanged(this)
      ensures !old(started) ==> started && history == [] && table == [] && published == [] && log == old(log)
    {
      if !started {
        started := true;
        history := [];
        table := [];
        assert Latest(published, Capacity) == [];
      }
    }

    /** `add_event_to_queue(e)`: appends `e` to the history, dropping the
        oldest event when 50 are held. */
    method AddEventToQueue(e: Event) returns (r: Outcome<BoardError>)
      requires Valid()
      modifies this
      ensures Valid()
      ensures !old(started) ==> r == Fail(NotStarted) && unchanged(this)
      ensures old(started) ==>
                && r == Pass && started
                && history == Window(old(history), e)
                && published == old(published) + [e]
                && table == old(table) && log == old(log)
    {
      if !started {
        return Fail(NotStarted);
      }
      WindowOfLatest(published, e);
      history := Window(history, e);
      published := published + [e];
      r := Pass;
    }

    /** `broadcast_event_to_subscribers(e)`: for each bucket in table order
        whose filter passes `e`, one `notify(e)` per entry in registration
        order. Nothing but the delivery log changes. */
    method BroadcastEventToSubscribers(e: Event) returns (r: Outcome<BoardError>)
      requires Valid()
      modifies this
      ensures Valid()
      ensures !old(started) ==> r == Fail(NotStarted) && unchanged(this)
      ensures old(started) ==>
                && r == Pass && started
                && history == old(history) && published == old(published) && table == old(table)
                && log == old(log) + Broadcast(table, e)
    {
      if !started {
        return Fail(NotStarted);
      }
      var t := table;
      ghost var sent: seq<Delivery> := [];
      var i := 0;
      while i < |t|
        invariant 0 <= i <= |t|
        invariant sent == Broadcast(t[..i], e)
      {
        var bucket := t[i];
        ghost var before := sent;
        if Passes(bucket.filter, e) {
          var subs := bucket.subscribers;
          var j := 0;
          while j < |subs|
            invariant 0 <= j <= |subs|
            invariant sent == before + Fanout(subs[..j], e)
          {
            assert subs[..j + 1][..j] == subs[..j];
            sent := sent + [(subs[j], e)];
            j := j + 1;
          }
          assert subs[..j] == subs;
        }
        assert sent == before + BucketDeliveries(bucket, e);
        assert t[..i + 1][..i] == t[..i];
        i := i + 1;
      }
      assert t[..i] == t;
      log := log + sent;
      r := Pass;
    }

    /** `publish(e)`: first into the history, then out to the subscribers. */
    method Publish(e: Event) returns (r: Outcome<BoardError>)
      requires Valid()
      modifies this
      ensures Valid()
      ensures !old(started) ==> r == Fail(NotStarted) && unchanged(this)
      ensures old(started) ==>
                && r == Pass && started
                && history == Window(old(history), e)
                && published == old(published) + [e]
                && table == old(table)
                && log == old(log) + Broadcast(old(table), e)
    {
      r := AddEventToQueue(e);
      if r.Pass? {
        r := BroadcastEventToSubscribers(e);
      }
    }

    /** `subscribe(s, f)`: `s` goes at the end of `f`'s bucket (a new bucket
        at the end of the table when `f` has none), and then receives every
        event of the history that `f` passes, oldest first. */
    method Subscribe(s: SubId, key: FilterId, f: Filter) returns (r: Outcome<BoardError>)
      requires Valid()
      requires KeyNames(table, key, f)
      modifies this
      ensures Valid()
      ensures !old(started) ==> r == Fail(NotStarted) && unchanged(this)
      ensures old(started) ==>
                && r == Pass && started
                && table == Register(old(table), key, f, s)
                && history == old(history) && published == old(published)
                && log == old(log) + Replay(s, Matching(f, history))
    {
      if !started {
        return Fail(NotStarted);
      }
      table := Register(table, key, f, s);
      var past := history;
      ghost var replayed: seq<Delivery> := [];
      var i := 0;
      while i < |past|
        invariant 0 <= i <= |past|
        invariant replayed == Replay(s, Matching(f, past[..i]))
      {
        assert Replay(s, Matching(f, past[..i + 1])) ==
                 replayed + (if Passes(f, past[i]) then [(s, past[i])] else []) by {
          ReplayMatchingStep(s, f, past, i);
        }
        if Passes(f, past[i]) {
          replayed := replayed + [(s, past[i])];
        }
        i := i + 1;
      }
      assert past[..i] == past;
      log := log + replayed;
      r := Pass;
    }

    /** `subscribe_all(s)`: subscribes `s` under a new null filter, which
        adds a bucket of its own at the end of the table and replays the
        whole history to `s`. `key` is the identity of that new filter
        object: the caller supplies one that no bucket uses (`FreshKey`
        gives one), and holds no other filter under it. */
    method SubscribeAll(s: SubId, key: FilterId) returns (r: Outcome<BoardError>)
      requires Valid()
      requires forall i :: 0 <= i < |table| ==> table[i].key != key
      modifies this
      ensures Valid()
      ensures !old(started) ==> r == Fail(NotStarted) && unchanged(this)
      ensures old(started) ==>
                && r == Pass && started
                && |table| == |old(table)| + 1
                && table[..|old(table)|] == old(table)
                && table[|old(table)|] == Bucket(key, NullFilter, [s])
                && history == old(history) && published == old(published)
                && log == old(log) + Replay(s, history)
    {
      r := Subscribe(s, key, NullFilter);
      MatchingNullFilter(history);
    }

    /** `unsubscribe(s, f)`: nothing when `f` has no bucket; otherwise the
        first occurrence of `s` leaves `f`'s bucket, or `ValueError` when
        `s` is not in it. The history and the delivery log are untouched. */
    method Unsubscribe(s: SubId, key: FilterId) returns (r: Outcome<BoardError>)
      requires Valid()
      modifies this
      ensures Valid()
      ensures !old(started) ==> r == Fail(NotStarted) && unchanged(this)
      ensures old(started) ==>
                match Unregister(old(table), key, s)
                case Success(t) =>
                  r == Pass && table == t
                  && started && history == old(history) && published == old(published) && log == old(log)
                case Failure(err) => r == Fail(err) && unchanged(this)
    {
      if !started {
        return Fail(NotStarted);
      }
      match Unregister(table, key, s)
      case Success(t) =>
        table := t;
        r := Pass;
      case Failure(err) =>
        r := Fail(err);
    }
  }
}
