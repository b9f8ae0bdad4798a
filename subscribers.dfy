/** The five subscriber variants of reflector/events.py, each as a pure step
    on its own state: counters keep a count, stream writers keep the lines
    they have written to their sink.

    Where the source has construction defects (the base constructor is
    referenced as `super.__init__` without being called, one counter bumps
    a misspelt `self.counter`, and the type stream writer calls `get_*`
    accessors that `DataEvent` does not have), the model follows the evident
    intent: every subscriber starts with count 0 and the null filter, the
    counter bumps `count`, and the accessors read the event's fields. */
module Subscribers {
  import opened Wrappers
  import opened Events
  import Text

  /** The delimiter the stream writers use unless told otherwise. */
  const DefaultDelim: string := "\t"

  datatype Subscriber =
    | TypeByFieldCounter(eventType: EventType, fieldName: string, count: nat)
    | TypeCounter(eventType: EventType, count: nat)
    | AllStreamWriter(delim: string, out: seq<string>)
    | TypeByFieldStreamWriter(eventType: EventType, fieldName: string, delim: string, out: seq<string>)
    | TypeStreamWriter(eventType: EventType, delim: string, out: seq<string>)
  {
    predicate IsCounter() {
      TypeByFieldCounter? || TypeCounter?
    }
  }

  /** The `filter` each subscriber carries: a type filter for the two
      subscribers that set one, the null filter otherwise. */
  function OwnFilter(s: Subscriber): (f: Filter)
    ensures s.TypeCounter? || s.TypeStreamWriter? ==> Requirements(f) == {TypeIs(s.eventType)}
    ensures !(s.TypeCounter? || s.TypeStreamWriter?) ==> f == NullFilter
  {
    match s
    case TypeCounter(t, _) => FieldFilter(None, None, Some(t))
    case TypeStreamWriter(t, _, _) => FieldFilter(None, None, Some(t))
    case _ => NullFilter
  }

  /** `DataEventTypeByFieldCounterSubscriber(de, field_name)`. */
  function NewTypeByFieldCounter(de: EventType, fieldName: string): (s: Subscriber)
    ensures s.TypeByFieldCounter? && s.eventType == de && s.fieldName == fieldName && s.count == 0
    ensures OwnFilter(s) == NullFilter
  {
    TypeByFieldCounter(de, fieldName, 0)
  }

  /** `DataEventTypeCounterSubscriber(de)`. */
  function NewTypeCounter(de: EventType): (s: Subscriber)
    ensures s.TypeCounter? && s.eventType == de && s.count == 0
    ensures Requirements(OwnFilter(s)) == {TypeIs(de)}
  {
    TypeCounter(de, 0)
  }

  /** `AllDataEventStreamWriterSubscriber(writer, delim='\t')`: the writer has
      written nothing yet. */
  function NewAllStreamWriter(delim: string := DefaultDelim): (s: Subscriber)
    ensures s.AllStreamWriter? && s.delim == delim && s.out == []
    ensures OwnFilter(s) == NullFilter
  {
    AllStreamWriter(delim, [])
  }

  /** `DataEventTypeByFieldStreamWriterSubscriber(de, field_name, writer, delim)`. */
  function NewTypeByFieldStreamWriter(de: EventType, fieldName: string, delim: string): (s: Subscriber)
    ensures s.TypeByFieldStreamWriter? && s.eventType == de && s.fieldName == fieldName
    ensures s.delim == delim && s.out == []
    ensures OwnFilter(s) == NullFilter
  {
    TypeByFieldStreamWriter(de, fieldName, delim, [])
  }

  /** `DataEventTypeStreamWriterSubscriber(de, writer, delim='\t')`. */
  function NewTypeStreamWriter(de: EventType, delim: string := DefaultDelim): (s: Subscriber)
    ensures s.TypeStreamWriter? && s.eventType == de && s.delim == delim && s.out == []
    ensures Requirements(OwnFilter(s)) == {TypeIs(de)}
  {
    TypeStreamWriter(de, delim, [])
  }

  /** Whether `notify(e)` acts on the event: the counters and the by-field
      writer test the event first; the other two writers act on every event. */
  predicate Accepts(s: Subscriber, e: Event) {
    match s
    case TypeByFieldCounter(t, name, _) => t == e.eventType && name == e.fieldName
    case TypeCounter(t, _) => e.eventType == t
    case AllStreamWriter(_, _) => true
    case TypeByFieldStreamWriter(t, name, _, _) => e.eventType == t && e.fieldName == name
    case TypeStreamWriter(_, _, _) => true
  }

  /** An f-string `{x or placeholder}` for a string. */
  function OrPlaceholder(x: string, placeholder: string): string {
    if x == "" then placeholder else x
  }

  /** An f-string `{x or placeholder}` for an optional string. */
  function ValueOr(x: Option<string>, placeholder: string): string {
    if Wildcard(x) then placeholder else x.value
  }

  /** The four fields a writer prints for `e`: type, field name, field value
      and record number. The by-field writer prints the field name as it is;
      the type writer's placeholder is 'null', the others' 'None'. */
  function Fields(s: Subscriber, e: Event): (fs: seq<string>)
    ensures |fs| == 4
  {
    var placeholder := if s.TypeStreamWriter? then "null" else "None";
    var name := if s.TypeByFieldStreamWriter? then e.fieldName else OrPlaceholder(e.fieldName, placeholder);
    [TypeName(e.eventType), name, ValueOr(e.fieldValue, placeholder), Text.IntToString(e.recordNumber)]
  }

  /** The line a writer appends to its sink for `e`, if it writes one: the
      fields separated by its delimiter and ended by a newline. */
  function WrittenLine(s: Subscriber, e: Event): (l: Option<string>)
    ensures l.Some? <==> !s.IsCounter() && Accepts(s, e)
    ensures l.Some? ==> |l.value| > 0 && l.value[|l.value| - 1] == '\n'
  {
    if s.IsCounter() || !Accepts(s, e) then None
    else Some(Text.Join(Fields(s, e), s.delim) + "\n")
  }

  /** `notify(e)`. A writer whose sink fails (`!sinkOk`) catches the
      `IOError` and leaves its output as it was. */
  function Notify(s: Subscriber, e: Event, sinkOk: bool): (s': Subscriber)
    ensures s.IsCounter() ==> s'.IsCounter() && s' == s.(count := s'.count)
    ensures !s.IsCounter() ==> !s'.IsCounter() && s' == s.(out := s'.out)
    ensures !s.IsCounter() && !sinkOk ==> s' == s
  {
    if s.IsCounter() then
      if Accepts(s, e) then s.(count := s.count + 1) else s
    else
      match WrittenLine(s, e)
      case Some(line) => if sinkOk then s.(out := s.out + [line]) else s
      case None => s
  }

  /** A counter goes up by exactly one on an event it accepts and stays put
      otherwise. */
  lemma CounterStep(s: Subscriber, e: Event, sinkOk: bool)
    requires s.IsCounter()
    ensures Accepts(s, e) ==> Notify(s, e, sinkOk).count == s.count + 1
    ensures !Accepts(s, e) ==> Notify(s, e, sinkOk) == s
  {
  }

  /** The state after being notified of `es` in order, every write succeeding. */
  function NotifyAll(s: Subscriber, es: seq<Event>): (s': Subscriber)
    ensures s.IsCounter() ==> s'.IsCounter() && s' == s.(count := s'.count) && s'.count >= s.count
    ensures !s.IsCounter() ==> !s'.IsCounter() && s' == s.(out := s'.out) && s.out <= s'.out
    decreases |es|
  {
    if es == [] then s else Notify(NotifyAll(s, es[..|es| - 1]), es[|es| - 1], true)
  }

  /** The lines a healthy writer produces for `es`, in order. */
  function Lines(s: Subscriber, es: seq<Event>): seq<string>
    decreases |es|
  {
    if es == [] then []
    else
      var last := es[|es| - 1];
      Lines(s, es[..|es| - 1]) + (match WrittenLine(s, last) case Some(l) => [l] case None => [])
  }

  /** The events of `es` that `s` acts on, in order. */
  function AcceptedEvents(s: Subscriber, es: seq<Event>): (r: seq<Event>)
    ensures forall x :: x in r ==> x in es && Accepts(s, x)
    decreases |es|
  {
    if es == [] then []
    else
      var last := es[|es| - 1];
      AcceptedEvents(s, es[..|es| - 1]) + (if Accepts(s, last) then [last] else [])
  }

  /** Exactly the accepted events of `es` are selected: none that the
      subscriber ignores, and none that it acts on is skipped. */
  lemma {:induction false} AcceptedEventsMembership(s: Subscriber, es: seq<Event>, x: Event)
    ensures x in AcceptedEvents(s, es) <==> x in es && Accepts(s, x)
    decreases |es|
  {
    if es != [] {
      var front, last := es[..|es| - 1], es[|es| - 1];
      AcceptedEventsMembership(s, front, x);
      assert es == front + [last];
    }
  }

  /** A counter ends up having counted exactly the events it accepts. */
  lemma {:induction false} CounterCountsAccepted(s: Subscriber, es: seq<Event>)
    requires s.IsCounter()
    ensures NotifyAll(s, es) == s.(count := s.count + |AcceptedEvents(s, es)|)
    decreases |es|
  {
    if es != [] {
      CounterCountsAccepted(s, es[..|es| - 1]);
    }
  }

  /** What a writer writes does not depend on what it has written before. */
  lemma WrittenLineIgnoresOutput(s: Subscriber, e: Event, o: seq<string>)
    requires !s.IsCounter()
    ensures WrittenLine(s.(out := o), e) == WrittenLine(s, e)
  {
    var w := s.(out := o);
    assert Fields(w, e) == Fields(s, e);
    assert w.delim == s.delim;
  }

  /** A writer's sink ends up holding its old lines followed by one line per
      accepted event, in order; nothing else about the writer changes. */
  lemma {:induction false} WriterAppendsLines(s: Subscriber, es: seq<Event>)
    requires !s.IsCounter()
    ensures NotifyAll(s, es) == s.(out := s.out + Lines(s, es))
    decreases |es|
  {
    if es != [] {
      var front, last := es[..|es| - 1], es[|es| - 1];
      WriterAppendsLines(s, front);
      var w := s.(out := s.out + Lines(s, front));
      WrittenLineIgnoresOutput(s, last, w.out);
      match WrittenLine(s, last)
      case Some(l) =>
        assert Lines(s, es) == Lines(s, front) + [l];
        assert s.out + Lines(s, es) == w.out + [l];
      case None =>
        assert Lines(s, es) == Lines(s, front);
    }
  }

  /** One line per accepted event. */
  lemma {:induction false} LinesPerAcceptedEvent(s: Subscriber, es: seq<Event>)
    requires !s.IsCounter()
    ensures |Lines(s, es)| == |AcceptedEvents(s, es)|
    decreases |es|
  {
    if es != [] {
      LinesPerAcceptedEvent(s, es[..|es| - 1]);
    }
  }

  /** What a subscriber's selection has in common with filters: the type
      counter accepts exactly what its own type filter passes, and the
      by-field subscribers exactly what a type-and-name filter passes, as
      long as the name is not empty (an empty name is a wildcard in a
      filter but must match exactly in the subscriber). */
  lemma AcceptsAsFilter(s: Subscriber, e: Event)
    ensures s.TypeCounter? ==> (Accepts(s, e) <==> Passes(OwnFilter(s), e))
    ensures (s.TypeByFieldCounter? || s.TypeByFieldStreamWriter?) && s.fieldName != "" ==>
              (Accepts(s, e) <==> Passes(FieldFilter(Some(s.fieldName), None, Some(s.eventType)), e))
  {
  }

  /** So the type counter counts exactly the events its own filter passes. */
  lemma {:induction false} TypeCounterCountsFilterMatches(t: EventType, c: nat, es: seq<Event>)
    ensures NotifyAll(TypeCounter(t, c), es).count == c + |Matching(OwnFilter(TypeCounter(t, c)), es)|
    decreases |es|
  {
    var s := TypeCounter(t, c);
    if es != [] {
      TypeCounterCountsFilterMatches(t, c, es[..|es| - 1]);
      CounterCountsAccepted(s, es[..|es| - 1]);
      AcceptsAsFilter(s, es[|es| - 1]);
    }
  }

  /** No member name of the first four contains a control character. */
  lemma MemberNameHasNoControlCharA(t: EventType, c: char)
    requires c < ' '
    requires t.Implicit? || t.CodedValue? || t.LiteralValue? || t.JustifiedAbsence?
    ensures c !in MemberName(t)
  {
    match t
    case Implicit => assert c !in "IMPLICIT";
    case CodedValue => assert c !in "CODED_VALUE";
    case LiteralValue => assert c !in "LITERAL_VALUE";
    case JustifiedAbsence => assert c !in "JUSTIFIED_ABSENCE";
  }

  /** No member name of the last four contains a control character. */
  lemma MemberNameHasNoControlCharB(t: EventType, c: char)
    requires c < ' '
    requires t.UnjustifiedAbsence? || t.RedundantPresence? || t.UnjustifiedPresence? || t.DisallowedValue?
    ensures c !in MemberName(t)
  {
    match t
    case UnjustifiedAbsence => assert c !in "UNJUSTIFIED_ABSENCE";
    case RedundantPresence => assert c !in "REDUNDANT_PRESENCE";
    case UnjustifiedPresence => assert c !in "UNJUSTIFIED_PRESENCE";
    case DisallowedValue => assert c !in "DISALLOWED_VALUE";
  }

  /** No rendered type name contains a control character. */
  lemma TypeNameHasNoControlChar(t: EventType, c: char)
    requires c < ' '
    ensures c !in TypeName(t)
  {
    if t.Implicit? || t.CodedValue? || t.LiteralValue? || t.JustifiedAbsence? {
      MemberNameHasNoControlCharA(t, c);
    } else {
      MemberNameHasNoControlCharB(t, c);
    }
    assert c !in "DataEventType.";
    assert TypeName(t) == "DataEventType." + MemberName(t);
  }

  /** No field of a written line contains a control character that is
      absent from the event's name and value. */
  lemma FieldsAvoid(s: Subscriber, e: Event, c: char)
    requires c < ' '
    requires c !in e.fieldName
    requires e.fieldValue.Some? ==> c !in e.fieldValue.value
    ensures forall k :: 0 <= k < 4 ==> c !in Fields(s, e)[k]
  {
    TypeNameHasNoControlChar(e.eventType, c);
    forall k | 0 <= k < |Text.IntToString(e.recordNumber)|
      ensures Text.IntToString(e.recordNumber)[k] != c
    {
      Text.IntToStringAlphabet(e.recordNumber, k);
    }
  }

  /** A written line reads back as its four fields when the delimiter is a
      single control character (the default is a tab) that occurs in
      neither the field name nor the field value: the type prints by name,
      an absent or empty value prints as the placeholder, and the record
      number reads back as the event's. */
  lemma WrittenLineDecodes(s: Subscriber, e: Event, c: char)
    requires !s.IsCounter() && Accepts(s, e)
    requires s.delim == [c] && c < ' '
    requires c !in e.fieldName
    requires e.fieldValue.Some? ==> c !in e.fieldValue.value
    ensures var l := WrittenLine(s, e).value;
            var fs := Text.Split(l[..|l| - 1], c);
            && fs == Fields(s, e)
            && fs[0] == TypeName(e.eventType)
            && (Wildcard(e.fieldValue) ==> fs[2] == (if s.TypeStreamWriter? then "null" else "None"))
            && (!Wildcard(e.fieldValue) ==> fs[2] == e.fieldValue.value)
            && |fs[3]| > 0 && Text.ParseInt(fs[3]) == e.recordNumber
  {
    var fs := Fields(s, e);
    var l := WrittenLine(s, e).value;
    FieldsAvoid(s, e, c);
    Text.SplitJoin(fs, c);
    assert l[..|l| - 1] == Text.Join(fs, s.delim);
    Text.IntToStringRoundTrip(e.recordNumber);
  }

  /** With the default tab delimiter, a written line reads back as its
      four fields whenever neither the name nor the value holds a tab. */
  lemma DefaultDelimDecodes(s: Subscriber, e: Event)
    requires !s.IsCounter() && Accepts(s, e)
    requires s.delim == DefaultDelim
    requires '\t' !in e.fieldName
    requires e.fieldValue.Some? ==> '\t' !in e.fieldValue.value
    ensures var l := WrittenLine(s, e).value;
            Text.Split(l[..|l| - 1], '\t') == Fields(s, e)
  {
    WrittenLineDecodes(s, e, '\t');
  }
}
