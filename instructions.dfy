/** `RtAnnotationInstruction` of reflector/instructions.py: an instruction
    that, executed on one row of a table, classifies one field of that row
    and publishes the resulting event on the message board.

    The row is the list of its field strings. The variable context maps a
    variable name to a template variable or to `None`; a template variable
    is reduced to the integer value the instruction reads from it. */
module Instructions {
  import opened Wrappers
  import opened Events
  import opened MessageBoard
  import Subscribers

  /** The name of the variable that carries the current record number. */
  const RecordNumberVar: string := "RECORD_NUMBER"

  /** An `RtTemplateVariable`, by the one attribute the instruction reads. */
  datatype TemplateVariable = TemplateVariable(value: int)

  /** The variable context: a dict from names to variables, some of them `None`. */
  type Variables = map<string, Option<TemplateVariable>>

  /** What `execute` can raise: the `KeyError` of a missing variable, the
      `IndexError` of a field position past the end of the row, or a failure
      of the board it publishes on. */
  datatype ExecuteError =
    | MissingVariable(name: string)
    | IndexOutOfRange(index: nat, length: nat)
    | BoardFailure(cause: BoardError)

  /** `RtAnnotationInstruction`: three settings, stored by the constructor
      and never changed afterwards. */
  class AnnotationInstruction {
    const eventType: EventType
    const fieldName: string
    const fieldOrder: nat

    /** `__init__(event_type, field_name, field_order_in_table)`. */
    constructor (eventType: EventType, fieldName: string, fieldOrder: nat)
      ensures this.eventType == eventType && this.fieldName == fieldName && this.fieldOrder == fieldOrder
    {
      this.eventType := eventType;
      this.fieldName := fieldName;
      this.fieldOrder := fieldOrder;
    }

    /** `execute(args, variables)`: builds the event and publishes it on the
        board, then returns `True`. An error leaves the board as it was. */
    method Execute(board: Board, args: seq<string>, variables: Variables)
      returns (r: Result<bool, ExecuteError>)
      requires board.Valid()
      modifies board
      ensures board.Valid()
      ensures AnnotationEvent(this, args, variables).Failure? ==>
                r == Failure(AnnotationEvent(this, args, variables).error) && unchanged(board)
      ensures AnnotationEvent(this, args, variables).Success? && !old(board.started) ==>
                r == Failure(BoardFailure(NotStarted)) && unchanged(board)
      ensures AnnotationEvent(this, args, variables).Success? && old(board.started) ==>
                var e := AnnotationEvent(this, args, variables).value;
                && r == Success(true)
                && board.started
                && board.history == Window(old(board.history), e)
                && board.published == old(board.published) + [e]
                && board.table == old(board.table)
                && board.log == old(board.log) + Broadcast(old(board.table), e)
    {
      match AnnotationEvent(this, args, variables)
      case Failure(err) =>
        r := Failure(err);
      case Success(e) =>
        var outcome := board.Publish(e);
        match outcome
        case Pass => r := Success(true);
        case Fail(err) => r := Failure(BoardFailure(err));
    }
  }

  /** The record number `execute` attributes the event to: the variable's
      value when the variable is set, 0 when it is `None`. */
  function RecordNumber(variables: Variables): (r: Result<int, ExecuteError>)
    ensures RecordNumberVar !in variables <==> r == Failure(MissingVariable(RecordNumberVar))
    ensures RecordNumberVar in variables && variables[RecordNumberVar].Some? ==>
              r == Success(variables[RecordNumberVar].value.value)
    ensures RecordNumberVar in variables && variables[RecordNumberVar].None? ==> r == Success(0)
  {
    if RecordNumberVar !in variables then Failure(MissingVariable(RecordNumberVar))
    else match variables[RecordNumberVar]
      case Some(v) => Success(v.value)
      case None => Success(0)
  }

  /** The event `execute` publishes for the row `args`, or the error it raises
      first: the record number is read before the field value. */
  function AnnotationEvent(ins: AnnotationInstruction, args: seq<string>, variables: Variables): (r: Result<Event, ExecuteError>)
    ensures RecordNumberVar !in variables ==> r == Failure(MissingVariable(RecordNumberVar))
    ensures RecordNumberVar in variables && ins.fieldOrder >= |args| ==>
              r == Failure(IndexOutOfRange(ins.fieldOrder, |args|))
    ensures RecordNumberVar in variables && ins.fieldOrder < |args| ==>
              && r.Success?
              && r.value.fieldName == ins.fieldName
              && r.value.fieldValue == Some(args[ins.fieldOrder])
              && r.value.eventType == ins.eventType
              && Success(r.value.recordNumber) == RecordNumber(variables)
  {
    match RecordNumber(variables)
    case Failure(err) => Failure(err)
    case Success(n) =>
      if ins.fieldOrder >= |args| then Failure(IndexOutOfRange(ins.fieldOrder, |args|))
      else
        // The type argument is a member, so the event is always built.
        var built := NewEvent(ins.fieldName, Some(args[ins.fieldOrder]), ByMember(ins.eventType), n);
        assert built.Success?;
        Success(built.value)
  }

  /** The event depends on the variable context only through the record
      number variable. */
  lemma AnnotationEventReadsOnlyRecordNumber(ins: AnnotationInstruction, args: seq<string>, v: Variables, w: Variables)
    requires RecordNumberVar in v <==> RecordNumberVar in w
    requires RecordNumberVar in v ==> v[RecordNumberVar] == w[RecordNumberVar]
    ensures AnnotationEvent(ins, args, v) == AnnotationEvent(ins, args, w)
  {
    var rv, rw := AnnotationEvent(ins, args, v), AnnotationEvent(ins, args, w);
    if rv.Success? {
      assert rv.value == rw.value;
    }
  }

  /** The event an instruction publishes is the one its own by-field counter
      counts, and passes the filter on its type, field name and value. */
  lemma AnnotationEventSelectedByItsSettings(ins: AnnotationInstruction, args: seq<string>, variables: Variables)
    requires AnnotationEvent(ins, args, variables).Success?
    ensures var e := AnnotationEvent(ins, args, variables).value;
            && Subscribers.Accepts(Subscribers.TypeByFieldCounter(ins.eventType, ins.fieldName, 0), e)
            && Passes(FieldFilter(Some(ins.fieldName), Some(args[ins.fieldOrder]), Some(ins.eventType)), e)
  {
  }
}
