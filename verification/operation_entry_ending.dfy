/** Whether an operation can end without a completion event, over everything that
    can happen to one entry. */
module OperationEntryEnding {
  import opened Integers
  import opened Wrappers
  import opened OperationStream
  import opened OperationEntries
  import opened OperationEntryInvariant
  import opened OperationEntrySteps
  import opened OperationEntryProgress
  import opened OperationEntryExactness
  import opened OperationHubRuns

  datatype Move = Move(step: Step, now: int, stopWins: bool, retained: bool)

  // ----- the length of an encoding -----

  // {"operation_id":"","sequence":,"kind":""}; identifiers need no JSON escapes.
  const EVENT_BYTES := 41

  // ,"message":""
  const MESSAGE_BYTES := 13

  // ,"prompt":{"id":"","kind":"","message":"","sensitive":true}
  const PROMPT_BYTES := 59

  lemma FramesAreSized()
    ensures |"{\"operation_id\":\"\",\"sequence\":,\"kind\":\"\"}"| == EVENT_BYTES
    ensures |",\"message\":\"\""| == MESSAGE_BYTES
    ensures |",\"prompt\":{\"id\":\"\",\"kind\":\"\",\"message\":\"\",\"sensitive\":true}"| == PROMPT_BYTES
    ensures |"progress"| == KindBytes(Progress) && |"warning"| == KindBytes(Warning)
    ensures |"prompt"| == KindBytes(Prompting)
  {
  }

  function KindBytes(kind: EventKind): nat {
    match kind
    case Progress => 8
    case Warning => 7
    case Prompting => 6
    case Complete => 8
    case Unrecognized => 0
  }

  // An empty message is left out and a byte of one takes one to six; details can
  // make a prompt as long as they like.
  predicate TrueSize(id: string, sequence: nat, d: Draft) {
    var bare := EVENT_BYTES + KindBytes(d.kind) + |id| + Digits(sequence);
    match d.kind
    case Prompting =>
      d.prompt.Some? ==>
        bare + PROMPT_BYTES + |d.prompt.value.id| + |d.prompt.value.kind| + |d.prompt.value.message| <= d.size
    case Complete => true
    case Unrecognized => true
    case _ =>
      d.prompt.None? && d.result.None? && d.failure.None? ==>
        if d.message == "" then d.size == bare
        else bare + MESSAGE_BYTES + |d.message| <= d.size <= bare + MESSAGE_BYTES + 6 * |d.message|
  }

  predicate TrulySized(e: Entry, step: Step) {
    match step
    case Emitting(d) => TrueSize(e.id, |e.events| + 1, d)
    case Asking(_, d) => TrueSize(e.id, |e.events| + 1, d)
    case _ => true
  }

  // A warning without a message is the shortest event that is not a completion.
  function LeastBytes(id: string, sequence: nat): nat {
    EVENT_BYTES + KindBytes(Warning) + |id| + Digits(sequence)
  }

  function LeastTotal(id: string, n: nat): nat {
    if n == 0 then 0 else LeastTotal(id, n - 1) + LeastBytes(id, n)
  }

  // By how much n events can exceed that: each by a letter of its kind, or one
  // by a message or prompt.
  predicate Attainable(n: nat, extra: int) {
    0 <= extra <= n || (n > 0 && extra > MESSAGE_BYTES)
  }

  lemma SizeIsAttainable(id: string, sequence: nat, d: Draft)
    requires TrueSize(id, sequence, d) && ShapeOk(Stamp(id, sequence, d)) && !d.kind.Complete?
    ensures Attainable(1, d.size - LeastBytes(id, sequence))
  {
  }

  // What can happen to an entry from its creation on.
  ghost predicate EntryRun(o: Options, id: string, es: seq<Entry>, moves: seq<Move>)
    requires o.Valid()
  {
    && |es| == |moves| + 1
    && (exists digest, release :: es[0] == ScheduleLoss(NewEntry(id, digest, release)))
    && forall i | 0 <= i < |moves| :: Moves(o, es[i], moves[i], es[i + 1])
  }

  ghost predicate Moves(o: Options, e: Entry, m: Move, f: Entry)
    requires o.Valid()
  {
    && Enabled(e, m.step) && TrulySized(e, m.step) && (m.retained || e.terminal)
    && f == Apply(o, e, m.step, m.now, m.stopWins, m.retained)
  }

  // An entry that has ended without a completion event.
  predicate EndsSilently(e: Entry) {
    e.terminal && !EndsComplete(e.events)
  }

  lemma {:induction false} EntryRunInv(o: Options, id: string, es: seq<Entry>, moves: seq<Move>, i: nat)
    requires o.Valid() && EntryRun(o, id, es, moves) && i < |es|
    ensures Inv(o, es[i]) && es[i].id == id
  {
    hide Inv, Enabled, Apply;
    if i == 0 {
      var digest, release :| es[0] == ScheduleLoss(NewEntry(id, digest, release));
      NewHasId(o, id, digest, release);
    } else {
      EntryRunInv(o, id, es, moves, i - 1);
      assert Moves(o, es[i - 1], moves[i - 1], es[i - 1 + 1]);
      MoveKeepsInv(o, es[i - 1], moves[i - 1], es[i]);
    }
  }

  lemma NewHasId(o: Options, id: string, digest: string, release: Option<nat>)
    requires o.Valid()
    ensures var e := ScheduleLoss(NewEntry(id, digest, release));
      Inv(o, e) && e.id == id && e.events == [] && e.eventBytes == 0 && !e.terminal
  {
    NewEntryInv(o, id, digest, release);
  }

  lemma MoveKeepsInv(o: Options, e: Entry, m: Move, f: Entry)
    requires o.Valid() && Inv(o, e) && Moves(o, e, m, f)
    ensures Inv(o, f) && f.id == e.id
  {
    hide Inv, Apply, Enabled;
    StepInv(o, e, m.step, m.now, m.stopWins, m.retained);
    StepProgress(o, e, m.step, m.now, m.stopWins, m.retained);
  }

  // ----- when the failure record does not fit -----

  // The fixed failure record does not fit what this log leaves of MaxBytes.
  predicate RecordMisses(o: Options, e: Entry) {
    CapacityDraft(e.id, |e.events| + 1).size > o.maxBytes - e.eventBytes
  }

  // Some log that events can fill leaves too little room for it.
  ghost predicate RoomCanRunOut(o: Options, id: string)
    requires o.Valid()
  {
    exists n: nat, extra: nat :: RunsOutAt(o, id, n, extra)
  }

  predicate RunsOutAt(o: Options, id: string, n: nat, extra: nat)
    requires o.Valid()
  {
    && n <= o.maxEvents - 1 && Attainable(n, extra)
    && LeastTotal(id, n) + extra <= o.NonterminalByteLimit()
    && CAPACITY_RECORD_BYTES + |id| + Digits(n + 1) > o.maxBytes - LeastTotal(id, n) - extra
  }

  // What holds of an entry at any moment of a run.
  ghost predicate RunOk(o: Options, id: string, e: Entry)
    requires o.Valid()
  {
    && Inv(o, e) && e.id == id
    && (!e.terminal ==> Attainable(|e.events|, e.eventBytes - LeastTotal(id, |e.events|)))
    && (EndsSilently(e) ==> RoomCanRunOut(o, id))
  }

  lemma MissesRunOut(o: Options, e: Entry)
    requires o.Valid() && Mid(o, e) && !e.terminal && !EndsComplete(e.events)
    requires Attainable(|e.events|, e.eventBytes - LeastTotal(e.id, |e.events|)) && RecordMisses(o, e)
    ensures RoomCanRunOut(o, e.id)
  {
    OpenLogFacts(o, e);
    assert RunsOutAt(o, e.id, |e.events|, e.eventBytes - LeastTotal(e.id, |e.events|));
  }

  // An append that ends the entry without a completion had no room for the
  // record; one that does not end it adds one event or nothing.
  lemma AppendEnds(o: Options, e: Entry, d: Draft, now: int, stopWins: bool)
    requires o.Valid() && Mid(o, e) && !e.terminal && !EndsComplete(e.events)
    ensures var (f, outcome) := Append(o, e, d, now, stopWins);
      && (outcome.CapacityExhausted? ==> f == TerminateCapacity(o, e, now, stopWins))
      && (EndsSilently(f) ==> RecordMisses(o, e))
      && (outcome.Appended? ==>
            && |f.events| == |e.events| + 1 && f.eventBytes == e.eventBytes + d.size && !f.terminal
            && ShapeOk(Stamp(e.id, |e.events| + 1, d)))
      && (outcome.Rejected? ==> f == e)
  {
    hide Mid, Retain, TerminateCapacity;
    AppendInv(o, e, d, now, stopWins);
    TerminateCapacityInv(o, e, now, stopWins);
    RetainedLog(e, Stamp(e.id, |e.events| + 1, d), d.size);
  }

  // ----- every step of a run -----

  // An open entry after a step: as long as it stays open its log is as it was or
  // one event longer, and if it ends silently there was no room for the record.
  ghost predicate Fair(o: Options, e: Entry, f: Entry) {
    && (EndsSilently(f) ==> RecordMisses(o, e))
    && (!f.terminal ==>
          || (|f.events| == |e.events| && f.eventBytes == e.eventBytes)
          || (|f.events| == |e.events| + 1
              && Attainable(1, f.eventBytes - e.eventBytes - LeastBytes(e.id, |e.events| + 1))))
  }

  lemma EmitFair(o: Options, e: Entry, d: Draft, now: int, stopWins: bool)
    requires o.Valid() && Inv(o, e) && !e.terminal && TrulySized(e, Emitting(d)) && !d.kind.Complete?
    ensures Fair(o, e, Emit(o, e, d, now, stopWins).0)
  {
    OpenEntry(o, e);
    hide Inv, Mid, Append, TrueSize, Attainable, ShapeOk;
    AppendEnds(o, e, d, now, stopWins);
    if Append(o, e, d, now, stopWins).1.Appended? {
      SizeIsAttainable(e.id, |e.events| + 1, d);
    }
  }

  lemma AskFair(o: Options, e: Entry, id: string, d: Draft, now: int, stopWins: bool)
    requires o.Valid() && Inv(o, e) && !e.terminal && TrulySized(e, Asking(id, d)) && !d.kind.Complete?
    ensures Fair(o, e, OpenPrompt(o, e, id, d, now, stopWins).0)
  {
    hide Inv, Mid, Append, RecordMisses, EndsComplete, TrueSize, Attainable, ShapeOk;
    OpenEntry(o, e);
    if e.prompt.None? {
      var state := PromptState(id, [], false, None, false, false);
      var asked := e.(prompt := Some(|e.prompts|), prompts := e.prompts + [state]);
      AskedMid(o, e, id);
      AppendEnds(o, asked, d, now, stopWins);
      SameRoom(o, e, asked);
      if Append(o, asked, d, now, stopWins).1.Appended? {
        SizeIsAttainable(e.id, |e.events| + 1, d);
      }
    }
  }

  lemma SameRoom(o: Options, e: Entry, f: Entry)
    requires f.id == e.id && f.events == e.events && f.eventBytes == e.eventBytes
    ensures RecordMisses(o, f) == RecordMisses(o, e)
  {
  }

  lemma FinishFair(o: Options, e: Entry, d: Draft, fallback: Draft, now: int, stopWins: bool)
    requires o.Valid() && Inv(o, e) && !e.terminal && d.kind.Complete? && fallback.kind.Complete?
    ensures Fair(o, e, Finish(o, e, d, fallback, now, stopWins))
  {
    hide Inv, Finish, Appendable, Crowded, Digits;
    FinishExactly(o, e, d, fallback, now, stopWins);
  }

  lemma DrainFair(o: Options, e: Entry, now: int, stopWins: bool)
    requires o.Valid() && Inv(o, e) && !e.terminal
    ensures Fair(o, e, DrainCancel(o, e, now, stopWins))
  {
    hide Inv, DrainCancel;
    DrainRecordedIff(o, e, now, stopWins);
  }

  lemma OtherFair(o: Options, e: Entry, m: Move, f: Entry)
    requires o.Valid() && !e.terminal && Moves(o, e, m, f)
    requires !(m.step.Emitting? || m.step.Asking? || m.step.Finishing? || m.step.Draining?)
    ensures Fair(o, e, f)
  {
    hide AnyAttached, Replay, DeliverAll;
  }

  lemma MoveFair(o: Options, e: Entry, m: Move, f: Entry)
    requires o.Valid() && Inv(o, e) && !e.terminal && Moves(o, e, m, f)
    ensures Fair(o, e, f)
  {
    hide Inv, Fair, Emit, OpenPrompt, Finish, DrainCancel, TrulySized;
    match m.step
    case Emitting(d) => EmitFair(o, e, d, m.now, m.stopWins);
    case Asking(id, d) => AskFair(o, e, id, d, m.now, m.stopWins);
    case Finishing(d, fallback) => FinishFair(o, e, d, fallback, m.now, m.stopWins);
    case Draining => DrainFair(o, e, m.now, m.stopWins);
    case _ => OtherFair(o, e, m, f);
  }

  lemma MoveKeepsRunOk(o: Options, id: string, e: Entry, m: Move, f: Entry)
    requires o.Valid() && RunOk(o, id, e) && Moves(o, e, m, f)
    ensures RunOk(o, id, f)
  {
    hide Inv, Moves, RoomCanRunOut;
    MoveKeepsInv(o, e, m, f);
    if !e.terminal {
      OpenEntry(o, e);
      MoveFair(o, e, m, f);
      if RecordMisses(o, e) {
        MissesRunOut(o, e);
      }
    } else {
      EndedStays(o, e, m, f);
    }
  }

  lemma EndedStays(o: Options, e: Entry, m: Move, f: Entry)
    requires o.Valid() && Inv(o, e) && Moves(o, e, m, f) && e.terminal
    ensures f.terminal && f.events == e.events
  {
    hide Inv, Apply, Enabled;
    StepProgress(o, e, m.step, m.now, m.stopWins, m.retained);
  }

  lemma {:induction false} EntryRunOk(o: Options, id: string, es: seq<Entry>, moves: seq<Move>, i: nat)
    requires o.Valid() && EntryRun(o, id, es, moves) && i < |es|
    ensures RunOk(o, id, es[i])
  {
    hide Inv, Moves, RoomCanRunOut;
    if i == 0 {
      var digest, release :| es[0] == ScheduleLoss(NewEntry(id, digest, release));
      NewHasId(o, id, digest, release);
    } else {
      EntryRunOk(o, id, es, moves, i - 1);
      assert Moves(o, es[i - 1], moves[i - 1], es[i - 1 + 1]);
      MoveKeepsRunOk(o, id, es[i - 1], moves[i - 1], es[i]);
    }
  }

  // ----- filling a log -----

  function Text(kind: EventKind, message: string, size: nat): Draft {
    Draft(kind, message, None, None, None, true, Some(2 + |message|), true, size)
  }

  function Letters(n: nat): string {
    seq(n, _ => 'x')
  }

  // A step that adds an event of so much more than the least size.
  function Filler(id: string, sequence: nat, extra: nat): Step
    requires Attainable(1, extra)
  {
    var size := LeastBytes(id, sequence) + extra;
    if extra == 0 then Emitting(Text(Warning, "", size))
    else if extra == 1 then Emitting(Text(Progress, "", size))
    else if extra <= MESSAGE_BYTES + MAX_MESSAGE_BYTES then
      Emitting(Text(Warning, Letters(extra - MESSAGE_BYTES), size))
    else
      Asking("p", Draft(Prompting, "", Some(Prompt("p", "k", "")), None, None, true, Some(size), true, size))
  }

  lemma FillOne(o: Options, e: Entry, extra: nat)
    requires o.Valid() && Inv(o, e) && !e.terminal && e.prompt.None? && Attainable(1, extra)
    requires |e.events| < o.maxEvents - 1
    requires e.eventBytes + LeastBytes(e.id, |e.events| + 1) + extra <= o.NonterminalByteLimit()
    ensures var step := Filler(e.id, |e.events| + 1, extra);
      && Enabled(e, step) && TrulySized(e, step)
      && var f := Apply(o, e, step, 0, true, true);
      && |f.events| == |e.events| + 1 && !f.terminal && (extra <= 1 ==> f.prompt.None?)
      && f.eventBytes == e.eventBytes + LeastBytes(e.id, |e.events| + 1) + extra
  {
    hide Inv, Mid, LogInv, Retain, TerminateCapacity, Digits;
    OpenEntry(o, e);
    OpenLogFacts(o, e);
    match Filler(e.id, |e.events| + 1, extra)
    case Emitting(d) => RetainedLog(e, Stamp(e.id, |e.events| + 1, d), d.size);
    case Asking(id, d) =>
      var state := PromptState(id, [], false, None, false, false);
      var asked := e.(prompt := Some(|e.prompts|), prompts := e.prompts + [state]);
      RetainedLog(asked, Stamp(e.id, |e.events| + 1, d), d.size);
  }

  // A run that leaves n events of the least size, or of `extra` more in all.
  lemma {:induction false} FilledRun(o: Options, id: string, n: nat, extra: nat)
    returns (es: seq<Entry>, moves: seq<Move>)
    requires o.Valid() && n <= o.maxEvents - 1 && Attainable(n, extra)
    requires LeastTotal(id, n) + extra <= o.NonterminalByteLimit()
    ensures es != [] && EntryRun(o, id, es, moves)
    ensures var e := es[|es| - 1];
      && |e.events| == n && !e.terminal && e.eventBytes == LeastTotal(id, n) + extra
      && (extra <= n ==> e.prompt.None?)
  {
    hide Inv, Apply, Enabled, TrulySized, Filler, LeastBytes;
    if n == 0 {
      es, moves := [ScheduleLoss(NewEntry(id, "", None))], [];
      NewHasId(o, id, "", None);
    } else {
      var own := if extra == 0 then 0 else if extra <= n then 1 else extra;
      es, moves := FilledRun(o, id, n - 1, extra - own);
      var e := es[|es| - 1];
      EntryRunInv(o, id, es, moves, |es| - 1);
      FillOne(o, e, own);
      es, moves := Extended(o, id, es, moves, Move(Filler(id, n, own), 0, true, true));
    }
  }

  lemma Extended(o: Options, id: string, es: seq<Entry>, moves: seq<Move>, m: Move)
    returns (longer: seq<Entry>, more: seq<Move>)
    requires o.Valid() && EntryRun(o, id, es, moves)
    requires var e := es[|es| - 1]; Enabled(e, m.step) && TrulySized(e, m.step) && (m.retained || e.terminal)
    ensures longer != [] && EntryRun(o, id, longer, more)
    ensures longer[|longer| - 1] == Apply(o, es[|es| - 1], m.step, m.now, m.stopWins, m.retained)
  {
    hide Enabled, Apply, TrulySized;
    var f := Apply(o, es[|es| - 1], m.step, m.now, m.stopWins, m.retained);
    longer, more := es + [f], moves + [m];
    forall i | 0 <= i < |more| ensures Moves(o, longer[i], more[i], longer[i + 1]) {
      if i < |moves| {
        assert longer[i] == es[i] && longer[i + 1] == es[i + 1] && more[i] == moves[i];
      }
    }
    assert longer[0] == es[0];
  }

  // ----- the exact condition -----

  ghost predicate CanEndSilently(o: Options, id: string)
    requires o.Valid()
  {
    exists es, moves :: SilentRun(o, id, es, moves)
  }

  ghost predicate SilentRun(o: Options, id: string, es: seq<Entry>, moves: seq<Move>)
    requires o.Valid()
  {
    es != [] && EntryRun(o, id, es, moves) && EndsSilently(es[|es| - 1])
  }

  // One event too large for any log ends the entry, silently if the record does
  // not fit either.
  lemma OneTooLarge(o: Options, id: string, es: seq<Entry>, moves: seq<Move>)
    requires o.Valid() && es != [] && EntryRun(o, id, es, moves) && !es[|es| - 1].terminal
    requires RecordMisses(o, es[|es| - 1])
    ensures CanEndSilently(o, id)
  {
    hide Inv, Enabled, EntryRun, TerminateCapacity, RecordMisses, Digits;
    var e := es[|es| - 1];
    EntryRunInv(o, id, es, moves, |es| - 1);
    OpenEntry(o, e);
    var d := TooLarge(o, e);
    TerminateCapacityInv(o, e, 0, true);
    TooLargeEnds(o, e);
    var longer, more := Extended(o, id, es, moves, Move(Emitting(d), 0, true, true));
    MissesSilently(o, e);
    assert SilentRun(o, id, longer, more);
  }

  // A warning with a message longer than MaxBytes.
  function TooLarge(o: Options, e: Entry): Draft
    requires o.Valid()
  {
    var message := Letters(o.maxBytes);
    Text(Warning, message, LeastBytes(e.id, |e.events| + 1) + MESSAGE_BYTES + |message|)
  }

  lemma TooLargeEnds(o: Options, e: Entry)
    requires o.Valid() && Mid(o, e) && !e.terminal && !EndsComplete(e.events)
    ensures Enabled(e, Emitting(TooLarge(o, e))) && TrulySized(e, Emitting(TooLarge(o, e)))
    ensures Apply(o, e, Emitting(TooLarge(o, e)), 0, true, true) == TerminateCapacity(o, e, 0, true)
  {
    OpenLogFacts(o, e);
    hide Mid, TerminateCapacity, Retain, Digits;
  }

  lemma MissesSilently(o: Options, e: Entry)
    requires o.Valid() && Mid(o, e) && !e.terminal && !EndsComplete(e.events) && RecordMisses(o, e)
    ensures EndsSilently(TerminateCapacity(o, e, 0, true))
  {
    hide Mid, TerminateCapacity;
    TerminateCapacityInv(o, e, 0, true);
  }

  /** Something can happen to an operation after which it has ended without a
      completion event exactly when some log that events can fill below the
      reserve, with the sizes their encodings really have, leaves too little room
      for the fixed failure record. */
  lemma EndsSilentlyExactly(o: Options, id: string)
    requires o.Valid()
    ensures CanEndSilently(o, id) <==> RoomCanRunOut(o, id)
  {
    hide Inv, EntryRun, Digits, Attainable;
    forall es, moves | SilentRun(o, id, es, moves) ensures RoomCanRunOut(o, id) {
      EntryRunOk(o, id, es, moves, |es| - 1);
    }
    if RoomCanRunOut(o, id) {
      var n: nat, extra: nat :| RunsOutAt(o, id, n, extra);
      var es, moves := FilledRun(o, id, n, extra);
      EntryRunInv(o, id, es, moves, |es| - 1);
      OneTooLarge(o, id, es, moves);
    }
  }

  /** An ID whose record fits the reserve at the highest sequence number is safe. */
  lemma RecordFitsNeverRunsOut(o: Options, id: string)
    requires o.Valid() && RecordFits(o, id)
    ensures !RoomCanRunOut(o, id)
  {
    forall n: nat, extra: nat ensures !RunsOutAt(o, id, n, extra) {
      if n <= o.maxEvents - 1 {
        DigitsMonotone(n + 1, o.maxEvents);
      }
    }
  }
}
