/** What the client's callbacks see of the log, over both attempts, whatever is
    cut, evicted, refused or answered. */
module OperationDelivery {
  import opened Integers
  import opened Wrappers
  import opened OperationStream
  import opened OperationClient

  // A log as the hub retains it.
  ghost predicate IsLog(id: string, log: seq<Event>) {
    && |log| < TWO_TO_THE_64 - 1
    && (forall i: nat | i < |log| :: log[i].operationId == id && log[i].sequence == i + 1 && ShapeOk(log[i]))
    && (forall i: nat | i < |log| - 1 :: !log[i].kind.Complete?)
  }

  // A callback answered this event with an error that wraps the client's own
  // interruption error.
  predicate Wraps(r: Reaction) {
    || (r.event.Some? && r.event.value.wraps)
    || (r.prompt.HandlerFailed? && r.prompt.error.wraps)
  }

  // The client goes on to the next event.
  predicate GoesOn(e: Event, r: Reaction) {
    && !e.kind.Complete? && r.event.None?
    && (e.kind.Prompting? ==> r.prompt.HandlerTimedOut? || r.prompt.Answered? || r.prompt.ResponseRefused?)
  }

  // The client gives up on an event before the completion with an error that it
  // then takes for an interruption of the stream.
  predicate GivesUpOn(e: Event, r: Reaction) {
    && !e.kind.Complete?
    && if r.event.Some? then r.event.value.wraps
       else e.kind.Prompting? && r.prompt.HandlerFailed? && r.prompt.error.wraps
  }

  // The prompt was answered, whether or not the response arrived.
  predicate Answers(e: Event, r: Reaction) {
    e.kind.Prompting? && r.event.None? && (r.prompt.Answered? || r.prompt.ResponseRefused? || r.prompt.ResponseLost?)
  }

  ghost predicate Increasing(qs: seq<uint64>) {
    forall i, j | 0 <= i < j < |qs| :: qs[i] < qs[j]
  }

  ghost predicate Within(lo: int, hi: int, qs: seq<uint64>) {
    forall i | 0 <= i < |qs| :: lo < qs[i] <= hi
  }

  // One attempt against a piece of the log after its cursor.
  ghost predicate AttemptShape(after: uint64, events: seq<Event>, react: nat -> Reaction, n: nat, a: Attempt) {
    var d := a.delivered;
    && d <= events
    && Increasing(a.answered) && Within(after, after + |d|, a.answered)
    && (a.end.Interrupted? ==> Within(after, a.acknowledged, a.answered))
    && (a.acknowledged == after + |d| ||
        (d != [] && a.acknowledged == after + |d| - 1 && !d[|d| - 1].kind.Complete?
         && (a.end.Interrupted? ==> Wraps(react(n + |d| - 1)))))
    && (a.end.Completed? ==> d != [] && d[|d| - 1].kind.Complete? && d[|d| - 1].failure.None?
                             && a.end.result == d[|d| - 1].result && a.acknowledged == after + |d|)
  }

  // Where an attempt over these events stops: every event before the last one
  // handed out goes on, and so does that one when nothing is left.
  ghost predicate StopsAt(events: seq<Event>, react: nat -> Reaction, n: nat, d: seq<Event>) {
    && d <= events
    && (forall i: nat | i < |d| :: GoesOn(events[i], react(n + i)) || i == |d| - 1)
    && (|d| < |events| ==> d != [] && !GoesOn(events[|d| - 1], react(n + |d| - 1)))
  }

  // How it ends there, and what it has acknowledged.
  ghost predicate EndsSo(after: uint64, end: StreamEnd, react: nat -> Reaction, n: nat, a: Attempt) {
    var d := a.delivered;
    if d == [] || GoesOn(d[|d| - 1], react(n + |d| - 1)) then
      && a.acknowledged == after + |d|
      && a.end == (if end.Oversized? then Failed(None) else Interrupted(None))
    else
      var e, r := d[|d| - 1], react(n + |d| - 1);
      if !e.kind.Complete? then
        a.acknowledged == after + |d| - 1 && a.end == (if GivesUpOn(e, r) then Interrupted(None) else Failed(None))
      else
        && a.acknowledged == after + |d|
        && (r.event.None? && e.failure.None? ==> a.end == Completed(e.result))
        && (r.event.None? && e.failure.Some? ==> a.end == Failed(None))
        && (r.event.Some? ==>
              a.end == if r.event.value.wraps then Interrupted(e.result) else Failed(e.result))
  }

  // Which prompts were answered.
  ghost predicate AnswersExactly(react: nat -> Reaction, n: nat, a: Attempt) {
    forall q :: q in a.answered <==> AnswersOne(react, n, a.delivered, q)
  }

  ghost predicate AnswersOne(react: nat -> Reaction, n: nat, d: seq<Event>, q: uint64) {
    exists i: nat :: i < |d| && Answers(d[i], react(n + i)) && d[i].sequence == q
  }

  lemma ShapeStep(after: uint64, events: seq<Event>, react: nat -> Reaction, n: nat, first: Attempt, rest: Attempt)
    requires events != [] && events[0].sequence == after + 1 && after + 1 < TWO_TO_THE_64
    requires first == Handle(events[0], react(n), after).0 && Handle(events[0], react(n), after).1
    requires AttemptShape(events[0].sequence, events[1..], react, n + 1, rest)
    ensures AttemptShape(after, events, react, n, After(first.delivered, first.answered, rest))
  {
  }

  lemma {:induction false} FollowLog(
    id: string, log: seq<Event>, after: uint64, events: seq<Event>, end: StreamEnd, react: nat -> Reaction, n: nat)
    requires IsLog(id, log) && after <= |log| && events <= log[after..]
    ensures AttemptShape(after, events, react, n, Follow(Cursor(id, after, false), events, end, react, n, after))
    decreases |events|
  {
    if events != [] {
      var v := Cursor(id, after, false);
      assert events[0] == log[after];
      assert v.Admits(events[0]);
      FollowStep(v, events, end, react, n, after);
      var (first, proceed) := Handle(events[0], react(n), after);
      if proceed {
        var rest := Follow(v.After(events[0]), events[1..], end, react, n + 1, first.acknowledged);
        assert log[after..][1..] == log[after + 1..];
        FollowLog(id, log, after + 1, events[1..], end, react, n + 1);
        ShapeStep(after, events, react, n, first, rest);
      }
    }
  }

  // ----- exactly where and how an attempt ends -----

  // Everything one attempt does, with which events of the connection go on.
  ghost predicate Conducted(
    after: uint64, events: seq<Event>, end: StreamEnd, react: nat -> Reaction, n: nat, a: Attempt) {
    StopsAt(events, react, n, a.delivered) && EndsSo(after, end, react, n, a) && AnswersExactly(react, n, a)
  }

  lemma ConductedOne(after: uint64, events: seq<Event>, end: StreamEnd, react: nat -> Reaction, n: nat)
    requires events != [] && events[0].sequence == after + 1 && !GoesOn(events[0], react(n))
    ensures var (first, proceed) := Handle(events[0], react(n), after);
      !proceed && Conducted(after, events, end, react, n, first)
  {
    var (first, proceed) := Handle(events[0], react(n), after);
    assert first.delivered == [events[0]] <= events;
    forall q ensures q in first.answered <==> AnswersOne(react, n, first.delivered, q) {
      if q in first.answered {
        assert Answers(first.delivered[0], react(n + 0)) && first.delivered[0].sequence == q;
      }
    }
  }

  lemma ConductedMore(
    after: uint64, events: seq<Event>, end: StreamEnd, react: nat -> Reaction, n: nat, rest: Attempt)
    requires events != [] && events[0].sequence == after + 1 && after + 1 < TWO_TO_THE_64
    requires GoesOn(events[0], react(n)) && Conducted(after + 1, events[1..], end, react, n + 1, rest)
    ensures var (first, proceed) := Handle(events[0], react(n), after);
      && proceed && first.acknowledged == after + 1
      && Conducted(after, events, end, react, n, OperationClient.After(first.delivered, first.answered, rest))
  {
    var (first, _) := Handle(events[0], react(n), after);
    var a := OperationClient.After(first.delivered, first.answered, rest);
    assert a.delivered == [events[0]] + rest.delivered;
    assert first.answered == if Answers(events[0], react(n)) then [events[0].sequence] else [];
    hide GivesUpOn, Handle, Answers, GoesOn, EndsSo, StopsAt, AnswersExactly;
    StopsMore(events, react, n, rest.delivered, a.delivered);
    EndsMore(events[0], after, end, react, n, rest, a);
    AnswersMore(events[0], react, n, first.answered, rest, a);
  }

  lemma StopsMore(events: seq<Event>, react: nat -> Reaction, n: nat, rest: seq<Event>, d: seq<Event>)
    requires events != [] && GoesOn(events[0], react(n)) && StopsAt(events[1..], react, n + 1, rest)
    requires d == [events[0]] + rest
    ensures StopsAt(events, react, n, d)
  {
    hide GoesOn;
    assert events == [events[0]] + events[1..];
    forall i: nat | i < |d| ensures GoesOn(events[i], react(n + i)) || i == |d| - 1 {
      if i > 0 {
        assert events[i] == events[1..][i - 1] && react(n + i) == react(n + 1 + (i - 1));
      }
    }
    if rest != [] {
      assert events[|d| - 1] == events[1..][|rest| - 1] && react(n + |d| - 1) == react(n + 1 + |rest| - 1);
    }
  }

  lemma EndsMore(
    e: Event, after: uint64, end: StreamEnd, react: nat -> Reaction, n: nat, rest: Attempt, a: Attempt)
    requires after + 1 < TWO_TO_THE_64 && GoesOn(e, react(n)) && EndsSo(after + 1, end, react, n + 1, rest)
    requires a.delivered == [e] + rest.delivered && a.acknowledged == rest.acknowledged && a.end == rest.end
    ensures EndsSo(after, end, react, n, a)
  {
    hide GoesOn, GivesUpOn;
    if rest.delivered != [] {
      assert react(n + |a.delivered| - 1) == react(n + 1 + |rest.delivered| - 1);
      assert a.delivered[|a.delivered| - 1] == rest.delivered[|rest.delivered| - 1];
    }
  }

  lemma AnswersMore(e: Event, react: nat -> Reaction, n: nat, answered: seq<uint64>, rest: Attempt, a: Attempt)
    requires AnswersExactly(react, n + 1, rest) && a.delivered == [e] + rest.delivered
    requires a.answered == answered + rest.answered && answered == if Answers(e, react(n)) then [e.sequence] else []
    ensures AnswersExactly(react, n, a)
  {
    hide Answers;
    forall q ensures q in a.answered <==> AnswersOne(react, n, a.delivered, q) {
      if q in rest.answered {
        var i: nat :| i < |rest.delivered| && Answers(rest.delivered[i], react(n + 1 + i))
                      && rest.delivered[i].sequence == q;
        assert a.delivered[i + 1] == rest.delivered[i] && react(n + (i + 1)) == react(n + 1 + i);
        assert Answers(a.delivered[i + 1], react(n + (i + 1)));
      } else if q in answered {
        assert Answers(a.delivered[0], react(n + 0));
      }
      if AnswersOne(react, n, a.delivered, q) {
        var i: nat :| i < |a.delivered| && Answers(a.delivered[i], react(n + i)) && a.delivered[i].sequence == q;
        if i > 0 {
          assert a.delivered[i] == rest.delivered[i - 1] && react(n + i) == react(n + 1 + (i - 1));
          assert AnswersOne(react, n + 1, rest.delivered, q);
        }
      }
    }
  }

  /** One attempt over a piece of a log: it hands out events up to the first one
      that does not go on, answers the prompts among them that its callback has
      an answer for, and ends as that last event says. */
  lemma {:induction false} FollowExactly(
    id: string, log: seq<Event>, after: uint64, events: seq<Event>, end: StreamEnd, react: nat -> Reaction, n: nat)
    requires IsLog(id, log) && after <= |log| && events <= log[after..]
    ensures Conducted(after, events, end, react, n, Follow(Cursor(id, after, false), events, end, react, n, after))
    decreases |events|
  {
    var v := Cursor(id, after, false);
    if events == [] {
      assert forall q :: !AnswersOne(react, n, [], q);
    } else {
      assert events[0] == log[after];
      assert v.Admits(events[0]);
      FollowStep(v, events, end, react, n, after);
      hide Conducted, Handle, GoesOn;
      if GoesOn(events[0], react(n)) {
        assert log[after..][1..] == log[after + 1..];
        FollowExactly(id, log, after + 1, events[1..], end, react, n + 1);
        ConductedMore(after, events, end, react, n,
            Follow(v.After(events[0]), events[1..], end, react, n + 1, after + 1));
      } else {
        ConductedOne(after, events, end, react, n);
      }
    }
  }

  // What a connection delivers is a piece of the log after the cursor.
  ghost predicate FromLog(log: seq<Event>, after: uint64, c: Connection)
    requires after <= |log|
  {
    c.Streaming? ==> c.events <= log[after..]
  }

  lemma ConnectionShape(id: string, log: seq<Event>, after: uint64, c: Connection, react: nat -> Reaction, n: nat)
    requires IsLog(id, log) && after <= |log| && FromLog(log, after, c)
    ensures AttemptShape(after, log[after..], react, n, FollowConnection(id, after, c, react, n))
    ensures FollowConnection(id, after, c, react, n).acknowledged <= |log|
  {
    if c.Streaming? {
      FollowLog(id, log, after, c.events, c.end, react, n);
      var a := FollowConnection(id, after, c, react, n);
      assert a.delivered <= c.events <= log[after..];
    }
  }

  // ----- when an event is handed out twice -----

  // The event the client gives up on, after going on with all before it.
  ghost predicate GivesUpAt(events: seq<Event>, react: nat -> Reaction, n: nat, p: nat)
    requires p < |events|
  {
    GivesUpOn(events[p], react(n + p)) && forall i: nat | i < p :: GoesOn(events[i], react(n + i))
  }

  ghost predicate GivesUp(events: seq<Event>, react: nat -> Reaction, n: nat) {
    exists p: nat :: p < |events| && GivesUpAt(events, react, n, p)
  }

  // The first connection carries an event the client gives up on, the caller has
  // not cancelled, and the second connection carries anything at all.
  ghost predicate Repeats(one: Connection, two: Connection, react: nat -> Reaction, cancelled: bool) {
    && !cancelled
    && one.Streaming? && GivesUp(one.events, react, 0)
    && two.Streaming? && two.events != []
  }

  // An attempt that stopped short of acknowledging what it handed out, to be retried.
  predicate StopsShort(after: uint64, a: Attempt) {
    a.end.Interrupted? && a.acknowledged != after + |a.delivered|
  }

  lemma HandleCases(e: Event, r: Reaction, acknowledged: uint64)
    ensures var (first, proceed) := Handle(e, r, acknowledged);
      && first.delivered == [e]
      && (proceed <==> GoesOn(e, r))
      && (GivesUpOn(e, r) ==> first.end.Interrupted? && first.acknowledged == acknowledged)
      && (!proceed && !GivesUpOn(e, r) ==> !first.end.Interrupted? || first.acknowledged == e.sequence)
  {
  }

  lemma GivesUpStep(events: seq<Event>, react: nat -> Reaction, n: nat)
    requires events != []
    ensures GivesUp(events, react, n) <==>
      GivesUpOn(events[0], react(n)) || (GoesOn(events[0], react(n)) && GivesUp(events[1..], react, n + 1))
  {
    hide GoesOn, GivesUpOn;
    var rest := events[1..];
    if GivesUpOn(events[0], react(n)) {
      assert GivesUpAt(events, react, n, 0);
    }
    if GoesOn(events[0], react(n)) && GivesUp(rest, react, n + 1) {
      var p: nat :| p < |rest| && GivesUpAt(rest, react, n + 1, p);
      forall i: nat | i < p + 1 ensures GoesOn(events[i], react(n + i)) {
        assert i > 0 ==> events[i] == rest[i - 1] && react(n + i) == react(n + 1 + (i - 1));
      }
      assert events[p + 1] == rest[p] && react(n + (p + 1)) == react(n + 1 + p);
      assert GivesUpAt(events, react, n, p + 1);
    }
    if GivesUp(events, react, n) && !GivesUpOn(events[0], react(n)) {
      var p: nat :| p < |events| && GivesUpAt(events, react, n, p);
      forall i: nat | i < p - 1 ensures GoesOn(rest[i], react(n + 1 + i)) {
        assert rest[i] == events[i + 1] && react(n + 1 + i) == react(n + (i + 1));
      }
      assert rest[p - 1] == events[p] && react(n + 1 + (p - 1)) == react(n + p);
      assert GivesUpAt(rest, react, n + 1, p - 1);
    }
  }

  /** An attempt over a log stops short exactly when the client gives up on one
      of the events the connection carries. */
  lemma {:induction false} StopsShortExactly(
    id: string, log: seq<Event>, after: uint64, events: seq<Event>, end: StreamEnd, react: nat -> Reaction, n: nat)
    requires IsLog(id, log) && after <= |log| && events <= log[after..]
    ensures StopsShort(after, Follow(Cursor(id, after, false), events, end, react, n, after)) <==>
        GivesUp(events, react, n)
    ensures events != [] ==> Follow(Cursor(id, after, false), events, end, react, n, after).delivered != []
    decreases |events|
  {
    if events != [] {
      var v := Cursor(id, after, false);
      assert events[0] == log[after];
      assert v.Admits(events[0]);
      FollowStep(v, events, end, react, n, after);
      HandleCases(events[0], react(n), after);
      GivesUpStep(events, react, n);
      hide GivesUp, GoesOn, GivesUpOn, Handle;
      var (first, proceed) := Handle(events[0], react(n), after);
      if proceed {
        assert log[after..][1..] == log[after + 1..];
        StopsShortExactly(id, log, after + 1, events[1..], end, react, n + 1);
      }
    }
  }

  lemma ConnectionStopsShort(id: string, log: seq<Event>, after: uint64, c: Connection, react: nat -> Reaction, n: nat)
    requires IsLog(id, log) && after <= |log| && FromLog(log, after, c)
    ensures StopsShort(after, FollowConnection(id, after, c, react, n)) <==> c.Streaming? && GivesUp(c.events, react, n)
    ensures FollowConnection(id, after, c, react, n).delivered != [] <==> c.Streaming? && c.events != []
  {
    hide GivesUp;
    if c.Streaming? {
      StopsShortExactly(id, log, after, c.events, c.end, react, n);
      FollowLog(id, log, after, c.events, c.end, react, n);
    }
  }

  // ----- what the caller is told -----

  // The connection carries a completion, and every event before it goes on.
  ghost predicate Completes(c: Connection, react: nat -> Reaction, n: nat) {
    && c.Streaming? && c.events != [] && c.events[|c.events| - 1].kind.Complete?
    && forall i: nat | i < |c.events| - 1 :: GoesOn(c.events[i], react(n + i))
  }

  // The connection is lost, or a callback makes the client believe so.
  ghost predicate Lost(c: Connection, react: nat -> Reaction, n: nat) {
    match c
    case Unreachable => true
    case Refused(final) => !final
    case WrongContent => false
    case Streaming(events, end) =>
      || GivesUp(events, react, n)
      || (end.Ended? && forall i: nat | i < |events| :: GoesOn(events[i], react(n + i)))
      || (Completes(c, react, n) && var r := react(n + |events| - 1).event; r.Some? && r.value.wraps)
  }

  // The answer to the caller, by the last event handed out: success is exactly a
  // completion without a failure that the callback took without an error.
  ghost predicate ToldBy(last: Event, callback: Option<CallbackError>, outcome: Outcome) {
    if !last.kind.Complete? then outcome == Failure(None)
    else
      && (callback.None? && last.failure.None? ==> outcome == Success(last.result))
      && (callback.None? && last.failure.Some? ==> outcome == Failure(None))
      && (callback.Some? && !callback.value.wraps ==> outcome == Failure(last.result))
      && (callback.Some? && callback.value.wraps ==> outcome == Failure(None))
  }

  ghost predicate Told(f: Following, react: nat -> Reaction) {
    var d := f.Delivered();
    if d == [] then f.outcome == Failure(None) else ToldBy(d[|d| - 1], react(|d| - 1).event, f.outcome)
  }

  ghost predicate HandsOutCompletion(d: seq<Event>) {
    d != [] && d[|d| - 1].kind.Complete?
  }

  lemma CompletionIsCarried(
    id: string, log: seq<Event>, after: uint64, c: Connection, react: nat -> Reaction, n: nat)
    requires IsLog(id, log) && after <= |log| && FromLog(log, after, c)
    ensures var a := FollowConnection(id, after, c, react, n);
      && (HandsOutCompletion(a.delivered) <==> Completes(c, react, n))
      && (Completes(c, react, n) ==> a.delivered == c.events == log[after..] && a.acknowledged == |log|)
      && (a.end.Interrupted? <==> Lost(c, react, n))
      && (a.delivered != [] ==> c.Streaming?)
      && (if a.delivered == [] then Conclude(a) == Failure(None)
          else var d := a.delivered; ToldBy(d[|d| - 1], react(n + |d| - 1).event, Conclude(a)))
  {
    hide IsLog, Conducted, Completes, Lost, ToldBy, HandsOutCompletion, Follow;
    if c.Streaming? {
      var events, a := c.events, FollowConnection(id, after, c, react, n);
      FollowExactly(id, log, after, events, c.end, react, n);
      CompletionEndsPiece(id, log, after, events);
      LostExactly(after, events, c.end, react, n, a);
      CarriedExactly(after, events, c.end, react, n, a);
      ToldExactly(after, events, c.end, react, n, a);
      if Completes(c, react, n) {
        CompletesHandsOut(c, react, n);
        LastOfLog(log, after);
      }
    } else {
      NotCarried(id, after, c, react, n);
    }
  }

  lemma NotCarried(id: string, after: uint64, c: Connection, react: nat -> Reaction, n: nat)
    requires !c.Streaming?
    ensures var a := FollowConnection(id, after, c, react, n);
      && !HandsOutCompletion(a.delivered) && !Completes(c, react, n) && (a.end.Interrupted? <==> Lost(c, react, n))
      && a.delivered == [] && Conclude(a) == Failure(None)
  {
  }

  lemma CompletesHandsOut(c: Connection, react: nat -> Reaction, n: nat)
    requires Completes(c, react, n)
    ensures HandsOutCompletion(c.events)
  {
  }

  lemma LastOfLog(log: seq<Event>, after: nat)
    requires after <= |log|
    ensures after + |log[after..]| == |log|
  {
  }

  lemma CarriedExactly(after: uint64, events: seq<Event>, end: StreamEnd, react: nat -> Reaction, n: nat, a: Attempt)
    requires Conducted(after, events, end, react, n, a)
    requires forall i: nat | i < |events| - 1 :: !events[i].kind.Complete?
    ensures HandsOutCompletion(a.delivered) <==> Completes(Streaming(events, end), react, n)
    ensures Completes(Streaming(events, end), react, n) ==> a.delivered == events && a.acknowledged == after + |events|
  {
    hide GivesUpOn, AnswersExactly;
    var d := a.delivered;
    if d != [] {
      assert d[|d| - 1] == events[|d| - 1];
      if |d| < |events| {
        assert !events[|d| - 1].kind.Complete?;
      }
    }
  }

  lemma ToldExactly(after: uint64, events: seq<Event>, end: StreamEnd, react: nat -> Reaction, n: nat, a: Attempt)
    requires Conducted(after, events, end, react, n, a)
    ensures var d := a.delivered;
      if d == [] then Conclude(a) == Failure(None) else ToldBy(d[|d| - 1], react(n + |d| - 1).event, Conclude(a))
  {
    hide StopsAt, AnswersExactly, GivesUpOn;
  }

  lemma CompletionEndsPiece(id: string, log: seq<Event>, after: uint64, piece: seq<Event>)
    requires IsLog(id, log) && after <= |log| && piece <= log[after..]
    ensures HandsOutCompletion(piece) ==> piece == log[after..]
    ensures forall i: nat | i < |piece| - 1 :: !piece[i].kind.Complete?
  {
  }

  lemma LostExactly(after: uint64, events: seq<Event>, end: StreamEnd, react: nat -> Reaction, n: nat, a: Attempt)
    requires Conducted(after, events, end, react, n, a)
    requires forall i: nat | i < |events| - 1 :: !events[i].kind.Complete?
    ensures a.end.Interrupted? <==> Lost(Streaming(events, end), react, n)
  {
    var d := a.delivered;
    if d != [] {
      var p: nat := |d| - 1;
      var e, r := events[p], react(n + p);
      assert d[p] == e;
      if GivesUpOn(e, r) {
        assert GivesUpAt(events, react, n, p);
      }
      if GivesUp(events, react, n) {
        var q: nat :| q < |events| && GivesUpAt(events, react, n, q);
        assert !GoesOn(events[q], react(n + q));
        assert q == p;
      }
    } else {
      assert events == [];
    }
  }

  /** What the caller is told is decided by the last event handed out, and a
      completion is handed out exactly when one of the connections carries it and
      every event before it goes on. */
  lemma AnswerExactly(
    id: string, log: seq<Event>, newer: seq<Event>, after: uint64, one: Connection, two: Connection,
    react: nat -> Reaction, cancelled: bool)
    requires IsLog(id, log) && after <= |log| && FromLog(log, after, one) && IsLog(id, newer)
    requires var ack := FollowConnection(id, after, one, react, 0).acknowledged;
      if ack <= |newer| then FromLog(newer, ack, two) else !two.Streaming?
    ensures var f := FollowTwice(id, after, one, two, react, cancelled);
      && Told(f, react)
      && (f.second.Some? <==> Lost(one, react, 0) && !cancelled)
      && (Completes(one, react, 0) ==> f.first.delivered == log[after..])
      && (newer == log ==>
            (HandsOutCompletion(f.Delivered()) <==>
              || Completes(one, react, 0)
              || (Lost(one, react, 0) && !cancelled && Completes(two, react, |f.first.delivered|))))
  {
    hide FollowConnection, IsLog, FromLog, Completes, Lost;
    CompletionIsCarried(id, log, after, one, react, 0);
    ConnectionShape(id, log, after, one, react, 0);
    var f := FollowTwice(id, after, one, two, react, cancelled);
    var ack, n := f.first.acknowledged, |f.first.delivered|;
    if f.second.Some? {
      if ack <= |newer| {
        CompletionIsCarried(id, newer, ack, two, react, n);
        assert newer == log && Completes(one, react, 0) ==> f.second.value.delivered == [] by {
          ConnectionShape(id, newer, ack, two, react, n);
        }
      } else {
        NothingRead(id, ack, two, react, n);
      }
      var d, whole := f.second.value.delivered, f.Delivered();
      assert whole == f.first.delivered + d;
      if d == [] {
        assert whole == f.first.delivered;
      } else {
        assert whole[|whole| - 1] == d[|d| - 1] && react(|whole| - 1) == react(n + |d| - 1);
      }
    } else {
      assert f.Delivered() == f.first.delivered;
    }
  }

  // Success is exactly a completion without a failure that the callback took
  // without an error; a completion is handed out exactly when a connection carries
  // it and every event before it goes on.
  ghost predicate Concluded(one: Connection, two: Connection, react: nat -> Reaction, cancelled: bool, f: Following) {
    var d := f.Delivered();
    && Told(f, react)
    && (f.outcome.Success? <==>
          HandsOutCompletion(d) && d[|d| - 1].failure.None? && react(|d| - 1).event.None?)
    && (HandsOutCompletion(d) <==>
          || Completes(one, react, 0)
          || (Lost(one, react, 0) && !cancelled && Completes(two, react, |f.first.delivered|)))
  }

  lemma ConcludedOnce(
    id: string, log: seq<Event>, after: uint64, one: Connection, two: Connection, react: nat -> Reaction,
    cancelled: bool)
    requires IsLog(id, log) && after <= |log| && FromLog(log, after, one)
    requires var ack := FollowConnection(id, after, one, react, 0).acknowledged; ack <= |log| ==> FromLog(log, ack, two)
    ensures Concluded(one, two, react, cancelled, FollowTwice(id, after, one, two, react, cancelled))
  {
    hide FollowTwice, FollowConnection, IsLog, FromLog, AttemptShape, Completes, Lost;
    ConnectionShape(id, log, after, one, react, 0);
    AnswerExactly(id, log, log, after, one, two, react, cancelled);
  }

  // ----- exactly once -----

  // What following a log amounts to. The events handed out are a gap-free,
  // duplicate-free run of the log right after the cursor, except that when
  // `again` one event is handed out twice, once by each attempt; a response is
  // sent at most once for each prompt; success carries the result of the log's
  // last event.
  ghost predicate DeliversOnce(log: seq<Event>, after: uint64, f: Following, again: bool)
    requires after <= |log|
  {
    && (f.Delivered() <= log[after..] <==> !again)
    && (again ==>
          && f.second.Some? && f.first.delivered != [] && f.second.value.delivered != []
          && f.second.value.delivered[0] == f.first.delivered[|f.first.delivered| - 1]
          && f.first.delivered[..|f.first.delivered| - 1] + f.second.value.delivered <= log[after..])
    && Increasing(f.Answered())
    && (f.outcome.Success? ==>
          && f.Delivered() != [] && log != []
          && f.Delivered()[|f.Delivered()| - 1] == log[|log| - 1]
          && log[|log| - 1].kind.Complete? && log[|log| - 1].failure.None? && f.outcome.result == log[|log| - 1].result)
  }

  lemma OneAttempt(id: string, log: seq<Event>, after: uint64, f: Following, react: nat -> Reaction)
    requires IsLog(id, log) && after <= |log| && f.second.None? && f.outcome == Conclude(f.first)
    requires AttemptShape(after, log[after..], react, 0, f.first)
    ensures DeliversOnce(log, after, f, false)
  {
  }

  lemma TwoAttempts(id: string, log: seq<Event>, after: uint64, f: Following, react: nat -> Reaction)
    requires IsLog(id, log) && after <= |log| && f.second.Some? && f.outcome == Conclude(f.second.value)
    requires f.first.end.Interrupted? && AttemptShape(after, log[after..], react, 0, f.first)
    requires f.first.acknowledged <= |log|
    requires AttemptShape(f.first.acknowledged, log[f.first.acknowledged..], react, |f.first.delivered|, f.second.value)
    ensures DeliversOnce(log, after, f, StopsShort(after, f.first) && f.second.value.delivered != [])
  {
    hide IsLog;
    var d1, ack, d2 := f.first.delivered, f.first.acknowledged, f.second.value.delivered;
    SecondConcludes(id, log, f, react);
    Joined(id, log, after, d1, ack, d2);
    JoinedAnswers(after, f.first.answered, ack, f.second.value.answered, ack + |d2|);
  }

  lemma SecondConcludes(id: string, log: seq<Event>, f: Following, react: nat -> Reaction)
    requires IsLog(id, log) && f.second.Some? && f.outcome == Conclude(f.second.value) && f.first.acknowledged <= |log|
    requires AttemptShape(f.first.acknowledged, log[f.first.acknowledged..], react, |f.first.delivered|, f.second.value)
    ensures f.outcome.Success? ==>
      && f.Delivered() != [] && log != [] && f.Delivered()[|f.Delivered()| - 1] == log[|log| - 1]
      && log[|log| - 1].kind.Complete? && log[|log| - 1].failure.None? && f.outcome.result == log[|log| - 1].result
  {
    CompleteIsLast(id, log);
    SuccessIsLast(log, f.first.acknowledged, f.second.value.delivered);
  }

  /** Exactly-once delivery over both attempts, but for the one repetition that
      the connections and the reactions of the callbacks decide. */
  lemma ExactlyOnce(
    id: string, log: seq<Event>, after: uint64, one: Connection, two: Connection, react: nat -> Reaction,
    cancelled: bool)
    requires IsLog(id, log) && after <= |log| && FromLog(log, after, one)
    requires var ack := FollowConnection(id, after, one, react, 0).acknowledged; ack <= |log| ==> FromLog(log, ack, two)
    ensures DeliversOnce(log, after, FollowTwice(id, after, one, two, react, cancelled),
        Repeats(one, two, react, cancelled))
    ensures Concluded(one, two, react, cancelled, FollowTwice(id, after, one, two, react, cancelled))
  {
    hide FollowConnection, IsLog, FromLog, AttemptShape, DeliversOnce, GivesUp, Concluded;
    ConcludedOnce(id, log, after, one, two, react, cancelled);
    ConnectionShape(id, log, after, one, react, 0);
    ConnectionStopsShort(id, log, after, one, react, 0);
    var f := FollowTwice(id, after, one, two, react, cancelled);
    if f.second.None? {
      OneAttempt(id, log, after, f, react);
    } else {
      var ack, n := f.first.acknowledged, |f.first.delivered|;
      ConnectionShape(id, log, ack, two, react, n);
      ConnectionStopsShort(id, log, ack, two, react, n);
      TwoAttempts(id, log, after, f, react);
    }
  }

  /** When the ID was used again for a new operation between the attempts, the
      second connection reads another log. The callbacks then see a piece of the
      first log right after the cursor followed by a piece of the second right
      after the acknowledged number; success carries the result of the log whose
      completion was handed out last. */
  lemma AcrossReusedId(
    id: string, log: seq<Event>, newer: seq<Event>, after: uint64, one: Connection, two: Connection,
    react: nat -> Reaction, cancelled: bool)
    requires IsLog(id, log) && after <= |log| && FromLog(log, after, one) && IsLog(id, newer)
    requires var ack := FollowConnection(id, after, one, react, 0).acknowledged;
      if ack <= |newer| then FromLog(newer, ack, two) else !two.Streaming?
    ensures var f := FollowTwice(id, after, one, two, react, cancelled);
      && f.first.delivered <= log[after..]
      && (f.second.Some? && f.second.value.delivered != [] ==>
            f.first.acknowledged <= |newer| && f.second.value.delivered <= newer[f.first.acknowledged..])
      && Increasing(f.Answered())
      && (f.outcome.Success? ==>
            var whole := if f.second.Some? then newer else log;
            && f.Delivered() != [] && whole != [] && f.Delivered()[|f.Delivered()| - 1] == whole[|whole| - 1]
            && whole[|whole| - 1].kind.Complete? && f.outcome.result == whole[|whole| - 1].result)
      && Told(f, react)
  {
    hide FollowConnection, IsLog, FromLog, Told;
    AnswerExactly(id, log, newer, after, one, two, react, cancelled);
    ConnectionShape(id, log, after, one, react, 0);
    var f := FollowTwice(id, after, one, two, react, cancelled);
    if f.second.None? {
      OneAttempt(id, log, after, f, react);
    } else if f.first.acknowledged <= |newer| {
      ConnectionShape(id, newer, f.first.acknowledged, two, react, |f.first.delivered|);
      SecondConcludes(id, newer, f, react);
      JoinedAnswers(after, f.first.answered, f.first.acknowledged, f.second.value.answered,
                    f.first.acknowledged + |f.second.value.delivered|);
    } else {
      NothingRead(id, f.first.acknowledged, two, react, |f.first.delivered|);
    }
  }

  lemma NothingRead(id: string, after: uint64, c: Connection, react: nat -> Reaction, n: nat)
    requires !c.Streaming?
    ensures var a := FollowConnection(id, after, c, react, n);
      a.delivered == [] && a.answered == [] && !a.end.Completed? && Conclude(a) == Failure(None)
  {
  }

  lemma CompleteIsLast(id: string, log: seq<Event>)
    requires IsLog(id, log)
    ensures forall i: nat | i < |log| - 1 :: !log[i].kind.Complete?
  {
  }

  lemma JoinedAnswers(lo: int, a: seq<uint64>, mid: int, b: seq<uint64>, hi: int)
    requires Increasing(a) && Increasing(b) && Within(lo, mid, a) && Within(mid, hi, b)
    ensures Increasing(a + b)
  {
  }

  // Two pieces of the log, the second from the acknowledged cursor.
  lemma Joined(id: string, log: seq<Event>, after: nat, d1: seq<Event>, ack: nat, d2: seq<Event>)
    requires IsLog(id, log) && after <= |log| && d1 <= log[after..]
    requires ack == after + |d1| || (d1 != [] && ack == after + |d1| - 1)
    requires ack <= |log| && d2 <= log[ack..]
    ensures ack == after + |d1| ==> d1 + d2 <= log[after..]
    ensures d2 == [] ==> d1 + d2 <= log[after..]
    ensures ack != after + |d1| && d2 != [] ==>
              && d2[0] == d1[|d1| - 1]
              && d1[..|d1| - 1] + d2 <= log[after..]
              && !(d1 + d2 <= log[after..])
  {
    var tail := log[after..];
    assert tail[|d1|..] == log[after + |d1|..];
    assert tail == d1 + tail[|d1|..];
    if d2 == [] {
      assert d1 + d2 == d1;
    } else if ack != after + |d1| {
      var kept := d1[..|d1| - 1];
      assert tail[|kept|..] == log[ack..];
      assert tail == kept + log[ack..];
      assert d2[0] == log[ack] == d1[|d1| - 1];
      assert (d1 + d2)[|d1|] == log[ack] && log[ack].sequence == ack + 1;
      assert |tail| > |d1| ==> tail[|d1|] == log[ack + 1] && log[ack + 1].sequence == ack + 2;
    }
  }

  lemma SuccessIsLast(log: seq<Event>, after: uint64, d: seq<Event>)
    requires after <= |log| && d <= log[after..]
    requires forall i: nat | i < |log| - 1 :: !log[i].kind.Complete?
    ensures d != [] && d[|d| - 1].kind.Complete? ==> log != [] && d[|d| - 1] == log[|log| - 1]
  {
  }

  // No callback error wraps the interruption error: strictly once.
  lemma PlainCallbacksSeeEachEventOnce(
    id: string, log: seq<Event>, after: uint64, one: Connection, two: Connection, react: nat -> Reaction,
    cancelled: bool)
    requires IsLog(id, log) && after <= |log| && FromLog(log, after, one)
    requires var ack := FollowConnection(id, after, one, react, 0).acknowledged; ack <= |log| ==> FromLog(log, ack, two)
    requires forall i: nat :: !Wraps(react(i))
    ensures FollowTwice(id, after, one, two, react, cancelled).Delivered() <= log[after..]
  {
    hide FollowConnection;
    ExactlyOnce(id, log, after, one, two, react, cancelled);
    assert one.Streaming? ==> !GivesUp(one.events, react, 0);
  }

  // The exception is real: a prompt whose handler gives up with the interruption
  // error is handed out a second time after the reconnect.
  lemma RetriedPromptIsSeenTwice(id: string)
    requires id != ""
    ensures var prompt := Event(id, 1, Prompting, "", Some(Prompt("p", "password", "")), None, None);
            var log := [prompt];
            var stream := Streaming(log, Ended);
            var react := (i: nat) =>
                Reaction(None, if i == 0 then HandlerFailed(CallbackError(true)) else PromptReaction.Answered);
            && IsLog(id, log) && FromLog(log, 0, stream)
            && FollowTwice(id, 0, stream, stream, react, false).Delivered() == [prompt, prompt]
            && FollowTwice(id, 0, stream, stream, react, false).Answered() == [1]
  {
    var prompt := Event(id, 1, Prompting, "", Some(Prompt("p", "password", "")), None, None);
    var log := [prompt];
    var react := (i: nat) =>
        Reaction(None, if i == 0 then HandlerFailed(CallbackError(true)) else PromptReaction.Answered);
    assert ShapeOk(prompt);
    var v := Cursor(id, 0, false);
    assert v.Admits(prompt);
    FollowStep(v, log, Ended, react, 0, 0);
    FollowStep(v, log, Ended, react, 1, 0);
    var (first, proceed) := Handle(prompt, react(1), 0);
    assert proceed && first.answered == [1];
    assert log[1..] == [];
    assert Follow(v.After(prompt), [], Ended, react, 2, 1) == Attempt([], [], 1, Interrupted(None));
  }
}
