# Reflector event bus, modelled in Dafny

This project models the event bus of the reflector package:

- `reflector/events.py`:
  - the eight data event types;
  - the `DataEvent` record;
  - the null filter and the field filter;
  - the five subscriber variants (two counters and three stream writers);
  - the `DataEventMessageBoard` broker. The broker keeps the last 50 published events. It routes each new event to the subscribers registered under every filter that passes it, and it replays the matching history to a new subscriber.
- `reflector/instructions.py`: the annotation instruction. It turns one row of a table into an event and publishes it on the board.

Files and modules:

| file | module | contents |
|---|---|---|
| `wrappers.dfy` | `Wrappers` | `Option`, `Result` and `Outcome`. They stand for Python's `None` and for the exceptions raised. |
| `text.dfy` | `Text` | Python's `str()` of an integer, joining fields with a delimiter, and the splitting that reads a line back. |
| `events.dfy` | `Events` | Event types, event construction, filters, and the selection of matching events from a history. |
| `subscribers.dfy` | `Subscribers` | Each subscriber as a value. `notify` is a pure step on that value: counters keep a count, writers keep the lines they have written to their sink. |
| `board.dfy` | `MessageBoard` | The routing table as a sequence of buckets, the functions that say who is notified of what, and the `Board` class whose methods update the history and the table in place. |
| `instructions.dfy` | `Instructions` | The annotation instruction and its `execute`. |
| `scenarios.dfy` | `Scenarios` | Runs of a board from start-up: an early subscriber, and a late subscriber after 50 or more publishes. Also the "age" example: three events about the field "age", records 1 to 3, typed coded, literal and coded, seen by a coded-type filter and a coded-type counter. |

Modelling choices:

- **Identity.** Filters and subscribers are Python objects without `__eq__`/`__hash__`, so the routing dict and `list.remove` compare them by identity. The model does the same: a `FilterId` or `SubId` stands for one object. `Subscribe` requires that a key already in the table names the same filter, since one object is one filter. `subscribe_all` makes a new `NullDataEventFilter` on each call. Its key is supplied by the caller and must differ from every key in the table.
- **Delivery log.** Each `notify` call the board makes is appended, in order, to a ghost delivery log. The effect of one call on a subscriber is `Subscribers.Notify`. What a subscriber `s` holds after a run is therefore `Subscribers.NotifyAll` over `DeliveriesTo(log, s)`.
- **Not started.** Before `start()`, the history and the table are `None`. Every board operation then fails on that `None`. The model returns `Fail(NotStarted)` and leaves the board unchanged.
- **Printing enum members.** `str()` of an enum member prints `DataEventType.NAME`, and the writers print the type that way.

At these points the model follows the code:

- Unsubscribing a subscriber that is not in an existing bucket raises `ValueError` (`list.remove`), modelled as `Fail(NotSubscribed)`. This is not a no-op.
- Filters with equal components but different objects get separate buckets. They are not merged by value.
- A missing `RECORD_NUMBER` variable raises `KeyError`, modelled as `MissingVariable`. The record number is 0 only when the variable is present and `None`.
- `DataEventTypeStreamWriterSubscriber.notify` does not check the event type. It writes every event it is notified of; only the filter it carries is a type filter.
- The by-field writer prints the field name without a placeholder.

The subscriber constructors have defects:

- `ADataEventSubscriber.__init__` calls `super.__init__()` instead of `super().__init__()`.
- The two counters call that same `super.__init__()` instead of the base constructor.
- The by-field counter increments a misspelt `self.counter`.
- The type stream writer calls accessors (`get_field_name` and so on) that `DataEvent` does not define.

The model follows the evident intent instead:

- every subscriber starts with count 0 and the null filter;
- the counter increments `count`;
- the accessors read the event's fields.

## Model

| member | source | states |
|---|---|---|
| Events.ValueInjective | reflector/events.py:13-21 | No two event types share a value string. |
| Events.TypeNameInjective | reflector/events.py:13-21 | No two event types print alike as `DataEventType.NAME`. |
| Events.ToEventType | reflector/events.py:56 | `DataEventType(x)` returns a member unchanged. For a string it finds the member with that value, or fails with `InvalidEventType` exactly when no member has that value. |
| Events.ToEventTypeRoundTrip | reflector/events.py:13-21 | Looking up a member's own value string finds that member. |
| Events.NewEvent | reflector/events.py:53-57 | The event stores the given name, value and record number, and the converted type. Construction fails only on an unknown type value string. |
| Events.NewEventAcceptsOnlyKnownTypes | reflector/events.py:53-57 | An event can be built if and only if the argument is a member or the value of one of the eight members. |
| Events.TypeName | reflector/events.py:13-21 | An event type prints as `DataEventType.` followed by its member name. |
| Events.Passes | reflector/events.py:79-94 | The null filter passes every event. A field filter passes an event when each of its components is a wildcard or equals the event's field. |
| Events.PassesIffMeetsAll | reflector/events.py:86-94 | A field filter passes an event if and only if the event meets every equality demanded by a component that is set. `None` and "" are wildcards, and the null filter demands nothing. |
| Events.PassesEverythingIffUnconstrained | reflector/events.py:79-94 | A filter passes every event if and only if none of its components is set. |
| Events.Matching | reflector/events.py:253-255 | The history events that pass the filter, oldest first; never more than the history. |
| Events.MatchingMembership | reflector/events.py:253-255 | An event is selected from a history if and only if it is in the history and passes the filter. |
| Events.MatchingAppend | reflector/events.py:253-255 | Selection keeps history order: the matches of a concatenation are the matches of each part, in order. |
| Events.MatchingNullFilter | reflector/events.py:79-82 | The null filter selects the whole history. |
| Text.NatToString | reflector/events.py:144 | `str(n)` for `n >= 0` is a non-empty string of digits with no leading zero. |
| Text.IntToStringRoundTrip | reflector/events.py:144 | The printed record number is non-empty and reads back as the record number. |
| Text.IntToStringInjective | reflector/events.py:144 | Distinct record numbers print differently. |
| Text.SplitJoin | reflector/events.py:141-144 | Splitting at a one-character delimiter undoes joining, when no field contains that character. |
| Subscribers.OwnFilter | reflector/events.py:101-184 | The type counter and the type writer carry a filter demanding exactly their type. Every other subscriber carries the null filter. |
| Subscribers.NewTypeByFieldCounter | reflector/events.py:113-116 | The by-field counter stores its type and field name, starts at count 0 and carries the null filter. |
| Subscribers.NewTypeCounter | reflector/events.py:123-126 | The type counter stores its type, starts at count 0 and carries a filter demanding exactly that type. |
| Subscribers.NewAllStreamWriter | reflector/events.py:133-136 | The all-events writer stores its delimiter, tab by default, has written nothing and carries the null filter. |
| Subscribers.NewTypeByFieldStreamWriter | reflector/events.py:153-158 | The by-field writer stores its type, field name and delimiter, has written nothing and carries the null filter. |
| Subscribers.NewTypeStreamWriter | reflector/events.py:179-184 | The type writer stores its type and delimiter, tab by default, has written nothing and carries a filter demanding exactly that type. |
| Subscribers.Accepts | reflector/events.py:118-165 | The counters and the by-field writer act only on events of their type (and field name, for the by-field ones). The two other writers act on every event. |
| Subscribers.Fields | reflector/events.py:138-198 | A writer prints four fields: the type by name, the field name, the value, and the record number. Empty or missing parts become "None", or "null" for the type writer; the by-field writer prints the name as it is. |
| Subscribers.WrittenLine | reflector/events.py:138-144 | A subscriber writes a line for an event if and only if it is a writer that accepts the event, and the line ends in a newline. |
| Subscribers.Notify | reflector/events.py:118-203 | `notify` changes only a counter's count or a writer's output. A writer whose sink fails is left unchanged. |
| Subscribers.CounterStep | reflector/events.py:118-130 | A counter goes up by exactly one on an event it accepts and is otherwise unchanged. |
| Subscribers.NotifyAll | reflector/events.py:118-203 | A sequence of notifications keeps a subscriber's settings, never lowers a count, and only extends a writer's output. |
| Subscribers.AcceptedEvents | reflector/events.py:118-130 | Every event a subscriber acts on is in the sequence and accepted by it. |
| Subscribers.AcceptedEventsMembership | reflector/events.py:118-203 | An event is acted on if and only if it is in the sequence and the subscriber accepts it. |
| Subscribers.CounterCountsAccepted | reflector/events.py:118-130 | After a sequence of events, a counter's count has grown by exactly the number of events it accepts, and nothing else about it has changed. |
| Subscribers.WrittenLineIgnoresOutput | reflector/events.py:138-144 | The line written for an event does not depend on what was written before. |
| Subscribers.WriterAppendsLines | reflector/events.py:138-147 | After a sequence of events, a writer's sink holds its old lines followed by the line of each accepted event, in order. |
| Subscribers.LinesPerAcceptedEvent | reflector/events.py:138-203 | A writer writes exactly one line per accepted event. |
| Subscribers.AcceptsAsFilter | reflector/events.py:118-130 | The type counter accepts exactly what its own filter passes. The by-field subscribers accept exactly what a type-and-name filter passes, unless the name is empty. |
| Subscribers.TypeCounterCountsFilterMatches | reflector/events.py:122-130 | The type counter counts exactly the events of a sequence that its own filter selects. |
| Subscribers.TypeNameHasNoControlChar | reflector/events.py:13-21 | No printed event type contains a control character, such as the default tab delimiter. |
| Subscribers.WrittenLineDecodes | reflector/events.py:138-203 | With a one-character control delimiter that is absent from the name and the value, a written line splits back into its four fields. The fields are: the type by name; the value or its placeholder ("None", or "null" for the type writer); and a record number that reads back as the event's. |
| Subscribers.DefaultDelimDecodes | reflector/events.py:133-184 | With the default tab delimiter, a written line without tabs in its name and value splits back into its four fields. |
| MessageBoard.Latest | reflector/events.py:221 | The history window holds the most recent `min(n, 50)` of `n` published events, oldest first. |
| MessageBoard.LatestIsSuffix | reflector/events.py:221 | The history window is the tail of the published events, in publication order. |
| MessageBoard.Window | reflector/events.py:233 | Appending to a full 50-event deque drops the oldest event; otherwise the new event is added at the end. |
| MessageBoard.WindowOfLatest | reflector/events.py:231-233 | Appending to the window of the latest 50 events gives the window of the latest 50 after one more publish. |
| MessageBoard.Find | reflector/events.py:260 | The lookup finds a bucket with the key, or reports that no bucket has it. |
| MessageBoard.FreshKey | reflector/events.py:243-244 | The dict key of a newly made filter differs from every existing key. |
| MessageBoard.Register | reflector/events.py:250 | The subscriber is appended to its filter's bucket, or to a new bucket at the end of the table. No other bucket changes, and keys stay unique. |
| MessageBoard.FirstIndex | reflector/events.py:261 | Finds the first occurrence of a subscriber in a bucket. |
| MessageBoard.RemoveFirst | reflector/events.py:261 | `list.remove` drops the first occurrence: the entries before it and after it are kept, in order, and the bucket loses exactly that one entry. |
| MessageBoard.Unregister | reflector/events.py:258-261 | Nothing changes if the filter has no bucket. Otherwise one occurrence of the subscriber leaves that bucket and the others are kept, or a `ValueError` is raised when it is not there. |
| MessageBoard.Fanout | reflector/events.py:239-240 | One notification per entry of the bucket. |
| MessageBoard.FanoutAt | reflector/events.py:239-240 | The `k`-th notification of a bucket goes to its `k`-th entry, in registration order, and carries the event. |
| MessageBoard.Broadcast | reflector/events.py:236-240 | The notifications of a broadcast: for each bucket in table order, one per entry when its filter passes the event, none otherwise. |
| MessageBoard.Replay | reflector/events.py:253-255 | One notification per replayed event. |
| MessageBoard.FanoutTo | reflector/events.py:239-240 | A bucket's fan-out reaches a subscriber once per entry of it in the bucket. |
| MessageBoard.BucketDeliveriesTo | reflector/events.py:238-240 | A bucket delivers the event to a subscriber once per entry, and only if its filter passes the event. |
| MessageBoard.BroadcastTo | reflector/events.py:236-240 | A broadcast delivers the event to a subscriber exactly once per entry of that subscriber in a bucket whose filter passes the event, and delivers nothing else to it. |
| MessageBoard.OccurrencesPositive | reflector/events.py:236-240 | A subscriber occurs in a passing bucket if and only if its occurrence count is positive. |
| MessageBoard.BroadcastReaches | reflector/events.py:236-240 | A broadcast reaches a subscriber if and only if some bucket whose filter passes the event lists it. |
| MessageBoard.BroadcastCarriesEvent | reflector/events.py:236-240 | Every notification of a broadcast carries the published event. |
| MessageBoard.FanoutCarriesEvent | reflector/events.py:239-240 | Every notification of a bucket's fan-out carries the published event. |
| MessageBoard.OccurrencesAfterRegister | reflector/events.py:248-250 | Subscribing adds exactly one future delivery of each event the filter passes, and changes no other subscriber's deliveries. |
| MessageBoard.OccurrencesAfterUnregister | reflector/events.py:258-261 | A successful unsubscribe removes exactly one future delivery of each event the bucket's filter passes, and changes no other subscriber's deliveries. |
| MessageBoard.NewSubscriberReceivesOnce | reflector/events.py:248-250 | A new subscriber receives each later event its filter passes exactly once, and no other. |
| MessageBoard.UnsubscribedReceivesNothing | reflector/events.py:258-261 | After unsubscribing its only registration, a subscriber receives nothing from later broadcasts. |
| MessageBoard.ReplayTo | reflector/events.py:253-255 | A replay delivers the replayed events, in order, to the new subscriber and to no one else. |
| MessageBoard.ReplayMatchingStep | reflector/events.py:253-255 | One step of the replay loop notifies the subscriber of the next history event if and only if the filter passes it. |
| MessageBoard.Board.constructor | reflector/events.py:214-215 | The board starts unstarted, with nothing published and nothing delivered. |
| MessageBoard.Board.Start | reflector/events.py:219-222 | The first call creates an empty history and table. Later calls change nothing. |
| MessageBoard.Board.AddEventToQueue | reflector/events.py:231-233 | The history becomes the window with the event appended. The table and the deliveries are untouched. It fails before start. |
| MessageBoard.Board.BroadcastEventToSubscribers | reflector/events.py:236-240 | The delivery log is extended by the broadcast of the event over the table, in table and registration order. Nothing else changes. |
| MessageBoard.Board.Publish | reflector/events.py:225-227 | Publishing appends to the history, then extends the log by the broadcast over the table as it stood. The history stays the latest 50 published events. |
| MessageBoard.Board.Subscribe | reflector/events.py:248-255 | The table becomes the registered table. The log is extended by one notification to the subscriber for each history event the filter passes, oldest first. |
| MessageBoard.Board.SubscribeAll | reflector/events.py:243-244 | A new bucket under a key no bucket uses, with the null filter and only the subscriber, goes at the end of the table. The other buckets are kept and the whole history is replayed to the subscriber. It fails before start. |
| MessageBoard.Board.Unsubscribe | reflector/events.py:258-261 | The table becomes the unregistered table, or the board is unchanged with `NotSubscribed`. The history and the log are untouched. |
| Instructions.AnnotationInstruction.constructor | reflector/instructions.py:22-25 | The instruction stores its event type, field name and field position. |
| Instructions.RecordNumber | reflector/instructions.py:28-29 | A missing `RECORD_NUMBER` raises `KeyError`. A variable set to `None` gives 0, and any other variable gives its value. |
| Instructions.AnnotationEvent | reflector/instructions.py:27-32 | A `KeyError` comes first, then an `IndexError` for a position past the row. Otherwise the event has the instruction's name and type, the row field at its position as value, and the record number. |
| Instructions.AnnotationEventReadsOnlyRecordNumber | reflector/instructions.py:28-29 | The event depends on the variable context only through `RECORD_NUMBER`. |
| Instructions.AnnotationEventSelectedByItsSettings | reflector/instructions.py:31-32 | The published event is accepted by the by-field counter of the instruction's type and name, and passes the filter on its type, name and value. |
| Instructions.AnnotationInstruction.Execute | reflector/instructions.py:27-35 | An error leaves the board unchanged. Otherwise the event is published, with the effects `Publish` states, and the result is `True`. |
| Scenarios.EarlySubscriberScenario | reflector/events.py:225-255 | A subscriber registered on a fresh board before any publish receives exactly the published events its filter passes, in publication order. |
| Scenarios.AgeScenario | reflector/events.py:93-94 | Of three events typed coded, literal and coded, a coded-type filter selects the first and the third, in that order. |
| Scenarios.CodedCounter | reflector/events.py:128-130 | A coded-value type counter counts two of those three events. |
| Scenarios.LateSubscriberScenario | reflector/events.py:221-255 | A subscriber on the null filter after 50 or more publishes is replayed exactly the last 50, oldest first. |

## Left out

- Locks and concurrency: the `synchronized` decorator (`reflector/events.py:24-47`) and the race between a broadcast and a concurrent subscribe are not modelled. Every board operation is atomic and sequential.
- The board as class-level static state: it is modelled as a `Board` object passed to `Instructions.AnnotationInstruction.Execute`.
- Real sinks: `write`, `flush` and the message printed on `IOError` are not modelled. A writer's sink is the list of the lines it has received.
- Subscribers.Notify: a sink failure drops the whole line. The source may have written part of a line before the failing `write`.
- Subscribers.NotifyAll: every write succeeds. Failures are covered one notification at a time by `Notify`.
- The board's log records `notify` calls but does not carry subscriber states. Their effect is given separately by `Subscribers.Notify`/`NotifyAll`.
- `ADataEventFilter.__equals__`: never called by the routing table.
- The assertion in `NullDataEventFilter.passes` that the event is not `None`: the model has no `None` event.
- The `writer = None` and `field_name = ""` defaults of `ADataEventSubscriber`: each variant sets its own fields.
- The abstract classes `ADataEventFilter`, `ADataEventSubscriber`, `RtAbstractInstruction` and `RtVariableAssignmentInstruction`: they have no behaviour of their own.
- The commented-out instructions of `reflector/instructions.py` (tuple completion, field value and RUI assignment): not code.
- Instructions.AnnotationEvent: the field position is a `nat`. Python's negative indices, counting from the end of the row, are not modelled.
- `RtTemplateVariable` and the `rt_core_v2` types: `reflector/etl.py` and `rt_core_v2` are not part of this model. A variable is reduced to the integer value it holds, and a variable object counts as truthy whenever it is not `None`.
- Events.Event: the field name is a `string` and never `None`, because the only producer of events, `execute`, passes a `str`. So the `or 'None'` fallback for a `None` name (`reflector/events.py:142`, `192`) and the `is not None` test of the by-field writer (`reflector/events.py:165`) are not modelled; Subscribers.Fields and Subscribers.Accepts cover only string names.
- MessageBoard.Board.SubscribeAll: the new filter's key is checked to be fresh only against the keys in the table. That it also differs from keys callers hold for filters without a bucket is the caller's obligation.
- Python's generic `str()` of an enum member: modelled as the fixed rendering `DataEventType.NAME`.
