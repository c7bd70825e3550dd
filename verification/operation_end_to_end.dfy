/** The client of one operation against any run of the hub: each connection reads
    some of what one subscription's consumer received before it was cut. */
module OperationEndToEnd {
  import opened Integers
  import opened Wrappers
  import opened OperationStream
  import opened OperationEntries
  import opened OperationEntryInvariant
  import opened OperationEntryProgress
  import opened OperationHubModel
  import opened OperationHubRuns
  import opened OperationClient
  import opened OperationDelivery

  function Events(rs: seq<Retained>): (es: seq<Event>)
    ensures |es| == |rs| && forall i: nat | i < |rs| :: es[i] == rs[i].event
  {
    seq(|rs|, i requires 0 <= i < |rs| => rs[i].event)
  }

  lemma EventsOfPrefix(a: seq<Retained>, b: seq<Retained>)
    requires a <= b
    ensures Events(a) <= Events(b)
  {
  }

  lemma EventsOfSuffix(a: seq<Retained>, n: nat)
    requires n <= |a|
    ensures Events(a[n..]) == Events(a)[n..]
  {
  }

  // The events of a reachable entry form a log in the client's sense.
  lemma RetainedIsLog(hs: seq<Hub>, acts: seq<Action>, m: nat, k: nat)
    requires Run(hs, acts) && m < |hs| && k < |hs[m].entries|
    ensures IsLog(hs[m].entries[k].id, Events(hs[m].entries[k].events))
  {
    hide Run, SubsInv, TimerInv, PromptInv;
    RunInv(hs, acts, m);
    var e := hs[m].entries[k];
    assert Inv(hs[m].options, e);
    forall i: nat | i < |e.events|
      ensures e.events[i].event.operationId == e.id && e.events[i].event.sequence == i + 1 && ShapeOk(e.events[i].event)
    {
      assert NumberedAt(e.id, e.events, i);
    }
  }

  // A connection to subscription `s` of entry `k`, as read by state `j`.
  ghost predicate ReadsFrom(hs: seq<Hub>, j: nat, k: nat, s: nat, after: uint64, c: Connection) {
    c.Streaming? ==>
      && j < |hs| && k < |hs[j].entries| && s in hs[j].entries[k].subscriptions
      && hs[j].entries[k].subscriptions[s].cursor == after
      && c.events <= Events(hs[j].entries[k].subscriptions[s].taken)
  }

  lemma ReadFromLog(hs: seq<Hub>, acts: seq<Action>, j: nat, m: nat, k: nat, s: nat, after: uint64, c: Connection)
    requires Run(hs, acts) && j <= m < |hs| && k < |hs[m].entries| && ReadsFrom(hs, j, k, s, after, c)
    requires after <= |hs[m].entries[k].events|
    ensures FromLog(Events(hs[m].entries[k].events), after, c)
  {
    hide Run;
    if c.Streaming? {
      ReceivedFromFinalLog(hs, acts, j, m, k, s);
      var taken := hs[j].entries[k].subscriptions[s].taken;
      var log := hs[m].entries[k].events;
      EventsOfPrefix(taken, log[after..]);
      EventsOfSuffix(log, after);
    }
  }

  // End to end: whatever is evicted, cut, retried or answered, the callbacks see
  // the operation's log exactly as ExactlyOnce says, and a nil error means the
  // operation ended with that result. Here both connections reach the same entry.
  lemma EndToEndDelivery(hs: seq<Hub>, acts: seq<Action>, k: nat, m: nat, after: uint64,
                         one: Connection, s1: nat, j1: nat, two: Connection, s2: nat, j2: nat,
                         react: nat -> Reaction, cancelled: bool)
    requires Run(hs, acts) && j1 <= m && j2 <= m < |hs| && k < |hs[m].entries|
    requires after <= |hs[m].entries[k].events|
    requires ReadsFrom(hs, j1, k, s1, after, one)
    requires ReadsFrom(hs, j2, k, s2, FollowConnection(hs[m].entries[k].id, after, one, react, 0).acknowledged, two)
    ensures var e := hs[m].entries[k];
            var log := Events(e.events);
            var f := FollowTwice(e.id, after, one, two, react, cancelled);
            && (f.Delivered() <= log[after..] <==> !Repeats(one, two, react, cancelled))
            && (Repeats(one, two, react, cancelled) ==>
                  && f.second.Some? && f.first.delivered != [] && f.second.value.delivered != []
                  && f.second.value.delivered[0] == f.first.delivered[|f.first.delivered| - 1]
                  && f.first.delivered[..|f.first.delivered| - 1] + f.second.value.delivered <= log[after..])
            && Increasing(f.Answered())
            && (f.outcome.Success? ==>
                  && e.terminal && log != [] && log[|log| - 1].kind.Complete?
                  && f.outcome.result == log[|log| - 1].result && log[|log| - 1].failure.None?
                  && f.Delivered() != [] && f.Delivered()[|f.Delivered()| - 1] == log[|log| - 1])
            && Concluded(one, two, react, cancelled, f)
  {
    hide Run, FollowConnection, IsLog, FromLog, ReadsFrom, Repeats, Concluded;
    var e := hs[m].entries[k];
    var log := Events(e.events);
    RetainedIsLog(hs, acts, m, k);
    ReadFromLog(hs, acts, j1, m, k, s1, after, one);
    var ack := FollowConnection(e.id, after, one, react, 0).acknowledged;
    if ack <= |log| {
      ReadFromLog(hs, acts, j2, m, k, s2, ack, two);
    }
    ExactlyOnce(e.id, log, after, one, two, react, cancelled);
    OneTerminalEvent(hs, acts, m, m, k);
  }

  // A connection never starts beyond the log of the entry it reads.
  lemma CursorWithinLog(hs: seq<Hub>, acts: seq<Action>, j: nat, m: nat, k: nat, s: nat, after: uint64, c: Connection)
    requires Run(hs, acts) && j <= m < |hs| && k < |hs[m].entries| && ReadsFrom(hs, j, k, s, after, c) && c.Streaming?
    ensures after <= |hs[m].entries[k].events|
  {
    hide Run;
    RunInv(hs, acts, j);
    RunEvolves(hs, acts, j, m, k);
    assert Inv(hs[j].options, hs[j].entries[k]);
  }

  // The same when the operation was pruned and its ID started again between the
  // attempts: entry `k2` is the new operation.
  lemma EndToEndAcrossRestart(hs: seq<Hub>, acts: seq<Action>, k: nat, k2: nat, m: nat, after: uint64,
                              one: Connection, s1: nat, j1: nat, two: Connection, s2: nat, j2: nat,
                              react: nat -> Reaction, cancelled: bool)
    requires Run(hs, acts) && j1 <= m && j2 <= m < |hs| && k < |hs[m].entries| && k2 < |hs[m].entries|
    requires after <= |hs[m].entries[k].events| && hs[m].entries[k2].id == hs[m].entries[k].id
    requires ReadsFrom(hs, j1, k, s1, after, one)
    requires ReadsFrom(hs, j2, k2, s2, FollowConnection(hs[m].entries[k].id, after, one, react, 0).acknowledged, two)
    ensures var e, e2 := hs[m].entries[k], hs[m].entries[k2];
            var log, newer := Events(e.events), Events(e2.events);
            var f := FollowTwice(e.id, after, one, two, react, cancelled);
            && f.first.delivered <= log[after..]
            && (f.second.Some? && f.second.value.delivered != [] ==>
                  f.first.acknowledged <= |newer| && f.second.value.delivered <= newer[f.first.acknowledged..])
            && Increasing(f.Answered())
            && (f.outcome.Success? ==>
                  var whole := if f.second.Some? then newer else log;
                  && f.Delivered() != [] && whole != [] && f.Delivered()[|f.Delivered()| - 1] == whole[|whole| - 1]
                  && whole[|whole| - 1].kind.Complete? && f.outcome.result == whole[|whole| - 1].result)
            && Told(f, react)
  {
    hide Run, FollowConnection, IsLog, FromLog, ReadsFrom, Told;
    var e, e2 := hs[m].entries[k], hs[m].entries[k2];
    var log, newer := Events(e.events), Events(e2.events);
    RetainedIsLog(hs, acts, m, k);
    RetainedIsLog(hs, acts, m, k2);
    ReadFromLog(hs, acts, j1, m, k, s1, after, one);
    var ack := FollowConnection(e.id, after, one, react, 0).acknowledged;
    if two.Streaming? {
      CursorWithinLog(hs, acts, j2, m, k2, s2, ack, two);
    }
    if ack <= |newer| {
      ReadFromLog(hs, acts, j2, m, k2, s2, ack, two);
    }
    AcrossReusedId(e.id, log, newer, after, one, two, react, cancelled);
  }
}
