/** The wire events of one operation and the validator that both the hub and
    the client run over them (service/operation.go). Strings are byte strings. */
module OperationStream {
  import opened Integers
  import opened Wrappers

  const MAX_MESSAGE_BYTES := 16384

  const MAX_RESPONSE_BYTES := 65536

  datatype EventKind = Progress | Warning | Prompting | Complete | Unrecognized

  datatype Prompt = Prompt(id: string, kind: string, message: string)

  datatype Descriptor = Descriptor(code: string, message: string, retryable: bool)

  datatype Event = Event(
    operationId: string,
    sequence: uint64,
    kind: EventKind,
    message: string,
    prompt: Option<Prompt>,
    result: Option<string>,
    failure: Option<Descriptor>)

  datatype Response = Response(promptId: string, value: string)

  predicate ResponseOk(r: Response) {
    r.promptId != "" && |r.value| <= MAX_RESPONSE_BYTES
  }

  // Which payloads each kind may carry.
  predicate ShapeOk(e: Event) {
    && |e.message| <= MAX_MESSAGE_BYTES
    && match e.kind
       case Progress => e.prompt.None? && e.result.None? && e.failure.None?
       case Warning => e.prompt.None? && e.result.None? && e.failure.None?
       case Prompting =>
         && e.prompt.Some? && e.prompt.value.id != "" && e.prompt.value.kind != ""
         && |e.prompt.value.message| <= MAX_MESSAGE_BYTES
         && e.result.None? && e.failure.None?
       case Complete => e.prompt.None? && e.result.None? == e.failure.Some?
       case Unrecognized => false
  }

  // The validator's fields as a value; uint64 addition wraps.
  datatype Cursor = Cursor(operationId: string, sequence: uint64, terminal: bool) {
    predicate Admits(e: Event) {
      && !terminal
      && e.operationId == operationId
      && e.sequence == (sequence + 1) % TWO_TO_THE_64
      && ShapeOk(e)
    }

    function After(e: Event): Cursor {
      this.(sequence := e.sequence, terminal := e.kind.Complete?)
    }
  }

  // Feeding a whole sequence to a validator, one event at a time.
  predicate AdmitsAll(c: Cursor, es: seq<Event>)
    decreases |es|
  {
    es == [] || (c.Admits(es[0]) && AdmitsAll(c.After(es[0]), es[1..]))
  }

  // The i-th event of a stream that starts after the given cursor.
  predicate Follows(id: string, after: uint64, i: nat, e: Event) {
    e.operationId == id && e.sequence == (after + 1 + i) % TWO_TO_THE_64 && ShapeOk(e)
  }

  // What an accepted stream looks like, without reference to the validator.
  ghost predicate IsRun(id: string, after: uint64, es: seq<Event>) {
    && (forall i: nat | i < |es| :: Follows(id, after, i, es[i]))
    && (forall i | 0 <= i < |es| - 1 :: !es[i].kind.Complete?)
  }

  lemma RunStep(id: string, after: uint64, es: seq<Event>)
    requires es != []
    ensures IsRun(id, after, es) <==>
              && Follows(id, after, 0, es[0])
              && (es[0].kind.Complete? ==> |es| == 1)
              && IsRun(id, es[0].sequence, es[1..])
  {
    var rest := es[1..];
    if Follows(id, after, 0, es[0]) {
      forall i: nat | i < |rest|
        ensures Follows(id, es[0].sequence, i, rest[i]) <==> Follows(id, after, i + 1, es[i + 1])
      {
        ModShift(after + 1, i + 1);
      }
      if IsRun(id, es[0].sequence, rest) && (es[0].kind.Complete? ==> |es| == 1) {
        forall i: nat | i < |es| ensures Follows(id, after, i, es[i]) {
          if i > 0 {
            assert Follows(id, es[0].sequence, i - 1, rest[i - 1]);
          }
        }
        forall i | 0 <= i < |es| - 1 ensures !es[i].kind.Complete? {
          if i > 0 {
            assert es[i] == rest[i - 1];
          }
        }
      }
    }
  }

  // The validator accepts exactly the consecutive, well-shaped runs of its own
  // operation in which nothing follows a completion.
  lemma {:induction false} AcceptedExactly(c: Cursor, es: seq<Event>)
    requires !c.terminal
    ensures AdmitsAll(c, es) <==> IsRun(c.operationId, c.sequence, es)
    decreases |es|
  {
    if es != [] {
      RunStep(c.operationId, c.sequence, es);
      var next := c.After(es[0]);
      if next.terminal {
        assert AdmitsAll(next, es[1..]) <==> |es| == 1;
      } else {
        AcceptedExactly(next, es[1..]);
      }
    }
  }

  lemma ModShift(a: int, b: int)
    ensures (a % TWO_TO_THE_64 + b) % TWO_TO_THE_64 == (a + b) % TWO_TO_THE_64
  {
  }

  class OperationStreamValidator {
    const operationId: string
    var sequence: uint64
    var terminal: bool

    function State(): Cursor
      reads this
    {
      Cursor(operationId, sequence, terminal)
    }

    constructor (operationId: string, afterSequence: uint64)
      ensures State() == Cursor(operationId, afterSequence, false)
    {
      this.operationId := operationId;
      sequence := afterSequence;
      terminal := false;
    }

    method Accept(event: Event) returns (ok: bool)
      modifies this
      ensures ok <==> old(State()).Admits(event)
      ensures State() == if ok then old(State()).After(event) else old(State())
    {
      if terminal || event.operationId != operationId ||
         event.sequence != (sequence + 1) % TWO_TO_THE_64 || !ShapeOk(event) {
        return false;
      }
      sequence := event.sequence;
      if event.kind.Complete? {
        terminal := true;
      }
      return true;
    }
  }
}
