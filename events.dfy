/** The event model of reflector/events.py: the closed set of event types,
    events, and the two kinds of filter that select events. */
module Events {
  import opened Wrappers

  /** `DataEventType`: the eight classifications an annotated field can get. */
  datatype EventType =
    | Implicit
    | CodedValue
    | LiteralValue
    | JustifiedAbsence
    | UnjustifiedAbsence
    | RedundantPresence
    | UnjustifiedPresence
    | DisallowedValue

  /** The value string each member is declared with. */
  function Value(t: EventType): string {
    match t
    case Implicit => "implicit"
    case CodedValue => "coded value"
    case LiteralValue => "literal value"
    case JustifiedAbsence => "justified absence"
    case UnjustifiedAbsence => "unjustified absence"
    case RedundantPresence => "redundant presence"
    case UnjustifiedPresence => "unjustified presence"
    case DisallowedValue => "disallowed value"
  }

  /** The member's declared name. */
  function MemberName(t: EventType): string {
    match t
    case Implicit => "IMPLICIT"
    case CodedValue => "CODED_VALUE"
    case LiteralValue => "LITERAL_VALUE"
    case JustifiedAbsence => "JUSTIFIED_ABSENCE"
    case UnjustifiedAbsence => "UNJUSTIFIED_ABSENCE"
    case RedundantPresence => "REDUNDANT_PRESENCE"
    case UnjustifiedPresence => "UNJUSTIFIED_PRESENCE"
    case DisallowedValue => "DISALLOWED_VALUE"
  }

  /** How a member prints inside an f-string: `str()` of an `Enum` member is
      the class name, a dot and the member name. */
  function TypeName(t: EventType): string {
    "DataEventType." + MemberName(t)
  }

  /** No two members share a value string, so lookup by value is unambiguous. */
  lemma ValueInjective(t: EventType, u: EventType)
    requires Value(t) == Value(u)
    ensures t == u
  {
  }

  /** No two members print alike. */
  lemma TypeNameInjective(t: EventType, u: EventType)
    requires TypeName(t) == TypeName(u)
    ensures t == u
  {
    assert MemberName(t) == TypeName(t)[|"DataEventType."|..];
    assert MemberName(u) == TypeName(u)[|"DataEventType."|..];
  }

  /** The argument of `DataEventType(x)`: Python's enum call accepts a value
      string, and also a member, which it returns unchanged. */
  datatype TypeArg = ByValue(value: string) | ByMember(member: EventType)

  /** The `ValueError` that `DataEventType(x)` raises for an unknown value. */
  datatype EventError = InvalidEventType(value: string)

  /** `DataEventType(x)`: lookup of a member by its value string. */
  function ToEventType(a: TypeArg): (r: Result<EventType, EventError>)
    ensures a.ByMember? ==> r == Success(a.member)
    ensures a.ByValue? && r.Success? ==> Value(r.value) == a.value
    ensures a.ByValue? && r.Failure? ==>
              r.error == InvalidEventType(a.value) && forall t :: Value(t) != a.value
  {
    match a
    case ByMember(t) => Success(t)
    case ByValue(v) =>
      if v == "implicit" then Success(Implicit)
      else if v == "coded value" then Success(CodedValue)
      else if v == "literal value" then Success(LiteralValue)
      else if v == "justified absence" then Success(JustifiedAbsence)
      else if v == "unjustified absence" then Success(UnjustifiedAbsence)
      else if v == "redundant presence" then Success(RedundantPresence)
      else if v == "unjustified presence" then Success(UnjustifiedPresence)
      else if v == "disallowed value" then Success(DisallowedValue)
      else Failure(InvalidEventType(v))
  }

  /** Looking a member up by its own value string finds that member. */
  lemma ToEventTypeRoundTrip(t: EventType)
    ensures ToEventType(ByValue(Value(t))) == Success(t)
  {
    var r := ToEventType(ByValue(Value(t)));
    ValueInjective(r.value, t);
  }

  /** `DataEvent`: one classified observation about one field of one record.
      The field value may be absent (`None`). */
  datatype Event = Event(fieldName: string, fieldValue: Option<string>, eventType: EventType, recordNumber: int)

  /** `DataEvent.__init__`: stores the four fields, converting the type
      argument with `DataEventType(...)`, which may raise. */
  function NewEvent(fieldName: string, fieldValue: Option<string>, typeArg: TypeArg, recordNumber: int): (r: Result<Event, EventError>)
    ensures r.Success? ==>
              && r.value.fieldName == fieldName
              && r.value.fieldValue == fieldValue
              && r.value.recordNumber == recordNumber
              && (typeArg.ByMember? ==> r.value.eventType == typeArg.member)
              && (typeArg.ByValue? ==> Value(r.value.eventType) == typeArg.value)
    ensures r.Failure? ==> typeArg.ByValue? && r.error == InvalidEventType(typeArg.value)
  {
    match ToEventType(typeArg)
    case Success(t) => Success(Event(fieldName, fieldValue, t, recordNumber))
    case Failure(err) => Failure(err)
  }

  /** An event can be built exactly when its type argument is a member or
      the value string of one of the eight members. */
  lemma NewEventAcceptsOnlyKnownTypes(fieldName: string, fieldValue: Option<string>, typeArg: TypeArg, recordNumber: int)
    ensures NewEvent(fieldName, fieldValue, typeArg, recordNumber).Success? <==>
              (typeArg.ByMember? || exists t :: Value(t) == typeArg.value)
  {
    var r := ToEventType(typeArg);
    if typeArg.ByValue? && r.Success? {
      assert Value(r.value) == typeArg.value;
    }
  }

  /** Filters: `NullDataEventFilter`, and `DataEventFilter` whose three
      components are each optional. */
  datatype Filter =
    | NullFilter
    | FieldFilter(fieldName: Option<string>, fieldValue: Option<string>, eventType: Option<EventType>)

  /** Python's `not x` for an optional string: true for `None` and for "". */
  predicate Wildcard(x: Option<string>) {
    x.None? || x.value == ""
  }

  /** `passes(e)`: the null filter accepts everything; a field filter
      accepts `e` when each component is a wildcard or equals `e`'s field
      (an enum member is always truthy, so only a `None` type is a wildcard). */
  predicate Passes(f: Filter, e: Event) {
    match f
    case NullFilter => true
    case FieldFilter(name, value, t) =>
      && (Wildcard(name) || name.value == e.fieldName)
      && (Wildcard(value) || value == e.fieldValue)
      && (t.None? || t.value == e.eventType)
  }

  /** One equality a filter demands of an event. */
  datatype Requirement = NameIs(name: string) | ValueIs(value: string) | TypeIs(eventType: EventType)

  predicate Meets(e: Event, q: Requirement) {
    match q
    case NameIs(n) => e.fieldName == n
    case ValueIs(v) => e.fieldValue == Some(v)
    case TypeIs(t) => e.eventType == t
  }

  /** The equalities a filter demands: one per component that is set. */
  function Requirements(f: Filter): set<Requirement> {
    match f
    case NullFilter => {}
    case FieldFilter(name, value, t) =>
      (if Wildcard(name) then {} else {NameIs(name.value)})
      + (if Wildcard(value) then {} else {ValueIs(value.value)})
      + (if t.None? then {} else {TypeIs(t.value)})
  }

  /** A filter passes an event exactly when the event meets every
      requirement of the filter. */
  lemma PassesIffMeetsAll(f: Filter, e: Event)
    ensures Passes(f, e) <==> forall q :: q in Requirements(f) ==> Meets(e, q)
  {
    if f.FieldFilter? {
      var name, value, t := f.fieldName, f.fieldValue, f.eventType;
      if !Wildcard(name) { assert NameIs(name.value) in Requirements(f); }
      if !Wildcard(value) { assert ValueIs(value.value) in Requirements(f); }
      if t.Some? { assert TypeIs(t.value) in Requirements(f); }
    }
  }

  /** An event that fails requirement `q`. */
  function Violator(q: Requirement): (e: Event)
    ensures !Meets(e, q)
  {
    match q
    case NameIs(n) => Event(n + "?", None, Implicit, 0)
    case ValueIs(v) => Event("", None, Implicit, 0)
    case TypeIs(t) => Event("", None, if t == Implicit then CodedValue else Implicit, 0)
  }

  /** A filter passes every event exactly when none of its components is
      set: the null filter and the all-wildcard field filter, and no other. */
  lemma PassesEverythingIffUnconstrained(f: Filter)
    ensures (forall e :: Passes(f, e)) <==> Requirements(f) == {}
  {
    if Requirements(f) == {} {
      forall e ensures Passes(f, e) {
        PassesIffMeetsAll(f, e);
      }
    } else {
      var q :| q in Requirements(f);
      var e := Violator(q);
      PassesIffMeetsAll(f, e);
    }
  }

  /** The events of `h` that pass `f`, oldest first. */
  function Matching(f: Filter, h: seq<Event>): (r: seq<Event>)
    ensures |r| <= |h|
    decreases |h|
  {
    if h == [] then []
    else
      var last := h[|h| - 1];
      Matching(f, h[..|h| - 1]) + (if Passes(f, last) then [last] else [])
  }

  /** Exactly the events of `h` that pass `f` are selected: nothing that
      fails is selected and nothing that passes is skipped. */
  lemma {:induction false} MatchingMembership(f: Filter, h: seq<Event>, x: Event)
    ensures x in Matching(f, h) <==> x in h && Passes(f, x)
    decreases |h|
  {
    if h != [] {
      var front, last := h[..|h| - 1], h[|h| - 1];
      MatchingMembership(f, front, x);
      assert h == front + [last];
    }
  }

  /** Selection keeps the order of the history: the matches of a
      concatenation are the matches of each part, in order. */
  lemma {:induction false} MatchingAppend(f: Filter, a: seq<Event>, b: seq<Event>)
    ensures Matching(f, a + b) == Matching(f, a) + Matching(f, b)
    decreases |b|
  {
    if b == [] {
      assert a + b == a;
    } else {
      var last := b[|b| - 1];
      assert (a + b)[..|a + b| - 1] == a + b[..|b| - 1];
      MatchingAppend(f, a, b[..|b| - 1]);
    }
  }

  /** The null filter selects the whole history. */
  lemma {:induction false} MatchingNullFilter(h: seq<Event>)
    ensures Matching(NullFilter, h) == h
    decreases |h|
  {
    if h != [] {
      MatchingNullFilter(h[..|h| - 1]);
      assert h[..|h| - 1] + [h[|h| - 1]] == h;
    }
  }
}
