/** Runs of the message board from start-up, each proved to end with the
    expected deliveries, and a three-event example on the field "age". */
module Scenarios {
  import opened Wrappers
  import opened Events
  import opened MessageBoard
  import Subscribers

  /** A table of one bucket holding only `s`, under filter `f`. */
  lemma OneBucket(s: SubId, f: Filter, e: Event)
    ensures Broadcast([Bucket(0, f, [s])], e) == if Passes(f, e) then [(s, e)] else []
  {
    var t := [Bucket(0, f, [s])];
    assert t[..0] == [];
    assert [s][..0] == [];
  }

  /** A subscriber that registers on a fresh board before any event is
      published receives exactly the published events that its filter
      passes, in publication order. */
  method EarlySubscriberScenario(s: SubId, f: Filter, es: seq<Event>) returns (board: Board)
    ensures board.Valid() && board.started
    ensures board.published == es
    ensures DeliveriesTo(board.log, s) == Matching(f, es)
  {
    board := new Board();
    board.Start();
    var r := board.Subscribe(s, 0, f);
    ghost var t := [Bucket(0, f, [s])];
    assert board.table == t && board.log == [];
    var i := 0;
    while i < |es|
      invariant 0 <= i <= |es|
      invariant board.Valid() && board.started
      invariant board.table == t
      invariant board.published == es[..i]
      invariant DeliveriesTo(board.log, s) == Matching(f, es[..i])
      modifies board
    {
      PublishOnOneBucket(board, s, f, es[i]);
      assert es[..i + 1][..i] == es[..i];
      assert es[..i + 1] == es[..i] + [es[i]];
      i := i + 1;
    }
    assert es[..i] == es;
  }

  /** One publish in the early-subscriber run: `s` receives the event if
      and only if `f` passes it. */
  method PublishOnOneBucket(board: Board, s: SubId, f: Filter, e: Event)
    requires board.Valid() && board.started && board.table == [Bucket(0, f, [s])]
    modifies board
    ensures board.Valid() && board.started && board.table == old(board.table)
    ensures board.published == old(board.published) + [e]
    ensures DeliveriesTo(board.log, s) == DeliveriesTo(old(board.log), s) + if Passes(f, e) then [e] else []
  {
    ghost var before := board.log;
    var r := board.Publish(e);
    OneBucket(s, f, e);
    DeliveriesToAppend(before, Broadcast(board.table, e), s);
    assert [(s, e)][..0] == [];
  }

  /** The "age" example (three events about the field "age", records 1 to
      3): of three events typed coded, literal and coded, a
      filter on the coded type selects the first and the third, in that
      order, so an early subscriber with that filter receives exactly
      those two. */
  lemma AgeScenario(e1: Event, e2: Event, e3: Event)
    requires e1.eventType == CodedValue && e2.eventType == LiteralValue && e3.eventType == CodedValue
    ensures Matching(FieldFilter(None, None, Some(CodedValue)), [e1, e2, e3]) == [e1, e3]
  {
    var f := FieldFilter(None, None, Some(CodedValue));
    assert [e1, e2, e3][..2] == [e1, e2];
    assert [e1, e2][..1] == [e1];
    assert [e1][..0] == [];
    assert Matching(f, [e1]) == [e1];
    assert Matching(f, [e1, e2]) == [e1];
  }

  /** A type counter for the coded type, notified of the same three events,
      counts two. */
  lemma CodedCounter(e1: Event, e2: Event, e3: Event)
    requires e1.eventType == CodedValue && e2.eventType == LiteralValue && e3.eventType == CodedValue
    ensures Subscribers.NotifyAll(Subscribers.TypeCounter(CodedValue, 0), [e1, e2, e3]).count == 2
  {
    var c := Subscribers.TypeCounter(CodedValue, 0);
    assert [e1, e2, e3][..2] == [e1, e2];
    assert [e1, e2][..1] == [e1];
    assert [e1][..0] == [];
    assert Subscribers.NotifyAll(c, [e1]).count == 1;
    assert Subscribers.NotifyAll(c, [e1, e2]).count == 1;
  }

  /** A subscriber that registers on the null filter after `|p| >= 50`
      events were published is replayed exactly the last 50 of them,
      oldest first. */
  method LateSubscriberScenario(p: seq<Event>, s: SubId) returns (board: Board)
    requires |p| >= Capacity
    ensures board.Valid() && board.started
    ensures DeliveriesTo(board.log, s) == p[|p| - Capacity..]
  {
    board := new Board();
    board.Start();
    var i := 0;
    while i < |p|
      invariant 0 <= i <= |p|
      invariant board.Valid() && board.started
      invariant board.table == [] && board.log == []
      invariant board.published == p[..i]
      modifies board
    {
      var r := board.Publish(p[i]);
      assert p[..i + 1] == p[..i] + [p[i]];
      i := i + 1;
    }
    assert p[..i] == p;
    var r := board.SubscribeAll(s, FreshKey(board.table));
    assert board.history == p[|p| - Capacity..];
    assert board.log == Replay(s, board.history);
    ReplayTo(s, board.history, s);
  }
}
