/** The daemon's admission gate (internal/daemon/gate.go): live reservations of
    two kinds, a drain flag, and a broadcast channel replaced at every change. */
module Gates {
  import opened Wrappers

  datatype Kind = Work | Lease

  // `channel` numbers the current `changed` channel; every lower one is closed.
  datatype GateState = GateState(
    lastActivity: int,
    draining: bool,
    drainDeadline: int,
    activeWork: int,
    activeLeases: int,
    reservationSeq: nat,
    reservations: map<nat, Kind>,
    channel: nat)
  {
    predicate Released() {
      draining && activeWork == 0 && activeLeases == 0
    }

    // Everything a waiter looks at.
    predicate SameForWaiters(other: GateState) {
      draining == other.draining && drainDeadline == other.drainDeadline
      && activeWork == other.activeWork && activeLeases == other.activeLeases
    }
  }

  ghost function OfKind(reservations: map<nat, Kind>, kind: Kind): set<nat> {
    set id | id in reservations && reservations[id] == kind
  }

  // The counters are the live reservations of each kind.
  ghost predicate GateInv(g: GateState) {
    && g.activeWork == |OfKind(g.reservations, Work)|
    && g.activeLeases == |OfKind(g.reservations, Lease)|
    && (forall id | id in g.reservations :: id <= g.reservationSeq)
  }

  function Notify(g: GateState): GateState {
    g.(channel := g.channel + 1)
  }

  function Max(a: int, b: int): int {
    if b > a then b else a
  }

  function TouchGate(g: GateState, now: int): GateState {
    if g.draining || now <= g.lastActivity then g else Notify(g.(lastActivity := now))
  }

  // A granted reservation is numbered by the new `reservationSeq`.
  function ReserveGate(g: GateState, kind: Kind, now: int): GateState {
    if g.draining then g
    else
      var id := g.reservationSeq + 1;
      Notify(g.(reservationSeq := id,
                reservations := g.reservations[id := kind],
                activeLeases := g.activeLeases + (if kind.Lease? then 1 else 0),
                activeWork := g.activeWork + (if kind.Work? then 1 else 0),
                lastActivity := Max(g.lastActivity, now)))
  }

  function ReleaseGate(g: GateState, id: nat): GateState {
    if id !in g.reservations then g
    else
      Notify(g.(reservations := g.reservations - {id},
                activeLeases := g.activeLeases - (if g.reservations[id].Lease? then 1 else 0),
                activeWork := g.activeWork - (if g.reservations[id].Work? then 1 else 0)))
  }

  function DrainGate(g: GateState, deadline: int): GateState {
    if g.draining then g else Notify(g.(draining := true, drainDeadline := deadline))
  }

  datatype GateAction =
    | Touching(now: int)
    | Reserving(kind: Kind, now: int)
    | ReleasingId(id: nat)
    | DrainingBy(deadline: int)

  function ApplyGate(g: GateState, a: GateAction): GateState {
    match a
    case Touching(now) => TouchGate(g, now)
    case Reserving(kind, now) => ReserveGate(g, kind, now)
    case ReleasingId(id) => ReleaseGate(g, id)
    case DrainingBy(deadline) => DrainGate(g, deadline)
  }

  function RunGate(g: GateState, acts: seq<GateAction>): GateState
    decreases |acts|
  {
    if acts == [] then g else RunGate(ApplyGate(g, acts[0]), acts[1..])
  }

  lemma ReserveInv(g: GateState, kind: Kind, now: int)
    requires GateInv(g)
    ensures GateInv(ReserveGate(g, kind, now))
  {
    if !g.draining {
      var id := g.reservationSeq + 1;
      AddReservation(g.reservations, id, kind);
    }
  }

  lemma AddReservation(reservations: map<nat, Kind>, id: nat, kind: Kind)
    requires id !in reservations
    ensures |OfKind(reservations[id := kind], Work)| == |OfKind(reservations, Work)| + (if kind.Work? then 1 else 0)
    ensures |OfKind(reservations[id := kind], Lease)| == |OfKind(reservations, Lease)| + (if kind.Lease? then 1 else 0)
  {
    var r := reservations[id := kind];
    assert OfKind(r, kind) == OfKind(reservations, kind) + {id};
    var other := if kind.Work? then Lease else Work;
    assert OfKind(r, other) == OfKind(reservations, other);
  }

  lemma ReleaseInv(g: GateState, id: nat)
    requires GateInv(g)
    ensures GateInv(ReleaseGate(g, id))
  {
    if id in g.reservations {
      var kind := g.reservations[id];
      var r := ReleaseGate(g, id).reservations;
      assert OfKind(r, kind) == OfKind(g.reservations, kind) - {id};
      assert id in OfKind(g.reservations, kind);
      var other := if kind.Work? then Lease else Work;
      assert OfKind(r, other) == OfKind(g.reservations, other);
    }
  }

  lemma ApplyGateInv(g: GateState, a: GateAction)
    requires GateInv(g)
    ensures GateInv(ApplyGate(g, a))
  {
    match a
    case Reserving(kind, now) => ReserveInv(g, kind, now);
    case ReleasingId(id) => ReleaseInv(g, id);
    case _ =>
  }

  // Over any run, with releases repeated at will: the counters stay exact, a
  // waiter holding a channel that is still open has seen the current state, the
  // first deadline wins, and after a drain has begun nothing is admitted.
  lemma {:induction false} GateRuns(g: GateState, acts: seq<GateAction>)
    requires GateInv(g)
    ensures var f := RunGate(g, acts);
            && GateInv(f)
            && g.channel <= f.channel
            && (f.channel == g.channel ==> f.SameForWaiters(g) && f.reservations == g.reservations)
            && (g.draining ==>
                  && f.draining && f.drainDeadline == g.drainDeadline
                  && f.reservationSeq == g.reservationSeq && f.reservations.Keys <= g.reservations.Keys)
            && (g.Released() ==> f == g)
    decreases |acts|
  {
    if acts != [] {
      hide GateInv;
      var next := ApplyGate(g, acts[0]);
      ApplyGateInv(g, acts[0]);
      GateRuns(next, acts[1..]);
      if g.Released() {
        NothingReserved(g);
      }
    }
  }

  lemma NothingReserved(g: GateState)
    requires GateInv(g) && g.activeWork == 0 && g.activeLeases == 0
    ensures g.reservations == map[]
  {
    assert g.reservations.Keys == OfKind(g.reservations, Work) + OfKind(g.reservations, Lease);
  }

  // Releasing twice is releasing once.
  lemma ReleaseTwice(g: GateState, id: nat)
    ensures ReleaseGate(ReleaseGate(g, id), id) == ReleaseGate(g, id)
  {
  }

  class Gate {
    var lastActivity: int
    var draining: bool
    var drainDeadline: int
    var activeWork: int
    var activeLeases: int
    var reservationSeq: nat
    var reservations: map<nat, Kind>
    var channel: nat

    function View(): GateState
      reads this
    {
      GateState(lastActivity, draining, drainDeadline, activeWork, activeLeases, reservationSeq, reservations, channel)
    }

    constructor (now: int)
      ensures GateInv(View()) && View() == GateState(now, false, 0, 0, 0, 0, map[], 0)
    {
      lastActivity, draining, drainDeadline := now, false, 0;
      activeWork, activeLeases, reservationSeq := 0, 0, 0;
      reservations, channel := map[], 0;
      new;
      assert OfKind(reservations, Work) == {} == OfKind(reservations, Lease);
    }

    method NotifyLocked()
      modifies `channel
      ensures channel == old(channel) + 1
    {
      channel := channel + 1;
    }

    method Touch(now: int)
      modifies this
      ensures View() == ApplyGate(old(View()), Touching(now))
      ensures lastActivity == (if !draining && now > old(lastActivity) then now else old(lastActivity))
      ensures lastActivity != old(lastActivity) ==> channel > old(channel)
      ensures View() == old(View()).(lastActivity := lastActivity, channel := channel)
    {
      if draining || !(now > lastActivity) {
        return;
      }
      lastActivity := now;
      NotifyLocked();
    }

    method Reserve(kind: Kind, now: int) returns (id: Option<nat>)
      modifies this
      ensures View() == ApplyGate(old(View()), Reserving(kind, now))
      ensures id.None? <==> old(draining)
      ensures id.Some? ==> reservations == old(reservations)[id.value := kind]
      ensures id.Some? && GateInv(old(View())) ==> id.value !in old(reservations) && GateInv(View())
      ensures id.Some? ==> lastActivity >= now && lastActivity >= old(lastActivity)
      ensures id.Some? ==> lastActivity == now || lastActivity == old(lastActivity)
      ensures draining == old(draining) && drainDeadline == old(drainDeadline)
    {
      if GateInv(View()) {
        ReserveInv(View(), kind, now);
      }
      if draining {
        return None;
      }
      reservationSeq := reservationSeq + 1;
      var next := reservationSeq;
      reservations := reservations[next := kind];
      if kind == Lease {
        activeLeases := activeLeases + 1;
      } else {
        activeWork := activeWork + 1;
      }
      if now > lastActivity {
        lastActivity := now;
      }
      NotifyLocked();
      return Some(next);
    }

    // The closure Reserve returns, which may be called any number of times.
    method Release(id: nat)
      modifies this
      ensures View() == ApplyGate(old(View()), ReleasingId(id))
      ensures reservations == old(reservations) - {id}
      ensures GateInv(old(View())) ==> GateInv(View())
      ensures draining == old(draining) && drainDeadline == old(drainDeadline) && lastActivity == old(lastActivity)
    {
      if GateInv(View()) {
        ReleaseInv(View(), id);
      }
      if id !in reservations {
        assert reservations == reservations - {id};
        return;
      }
      var kind := reservations[id];
      reservations := reservations - {id};
      if kind == Lease {
        activeLeases := activeLeases - 1;
      } else {
        activeWork := activeWork - 1;
      }
      NotifyLocked();
    }

    method BeginDrain(deadline: int)
      modifies this
      ensures View() == ApplyGate(old(View()), DrainingBy(deadline))
      ensures draining && drainDeadline == (if old(draining) then old(drainDeadline) else deadline)
      ensures reservations == old(reservations) && activeWork == old(activeWork) && activeLeases == old(activeLeases)
      ensures !old(draining) ==> channel > old(channel)
    {
      if !draining {
        draining := true;
        drainDeadline := deadline;
        NotifyLocked();
      }
    }
  }

  // ----- waiting -----

  // What ended one blocking select, and the clock afterwards.
  datatype Wake = ContextDone | ChannelClosed(now: int) | TimerFired

  // One turn of a wait loop: the state found under the lock, then the wake-up.
  datatype Turn = Turn(state: GateState, wake: Wake)

  datatype DrainResult = DrainReleased | DrainDeadline | DrainCanceled | StillWaiting

  // The clock a turn compares the deadline with.
  function Clock(turns: seq<Turn>, start: int, n: nat): int
    requires n <= |turns| && (n > 0 ==> turns[n - 1].wake.ChannelClosed?)
  {
    if n == 0 then start else turns[n - 1].wake.now
  }

  // The turn at which the loop returns, or the number of turns.
  method WaitForDrain(turns: seq<Turn>, start: int) returns (result: DrainResult, last: nat)
    ensures last <= |turns|
    ensures result == StillWaiting <==> last == |turns|
    ensures forall i | 0 <= i < last :: turns[i].wake.ChannelClosed?
    ensures forall i | 0 <= i < last ::
        !turns[i].state.Released() && Clock(turns, start, i) < turns[i].state.drainDeadline
    ensures result == DrainReleased <==> last < |turns| && turns[last].state.Released()
    ensures result == DrainDeadline <==>
              && last < |turns| && !turns[last].state.Released()
              && (turns[last].state.drainDeadline <= Clock(turns, start, last) || turns[last].wake.TimerFired?)
    ensures result == DrainCanceled <==>
              && last < |turns| && !turns[last].state.Released()
              && Clock(turns, start, last) < turns[last].state.drainDeadline && turns[last].wake.ContextDone?
  {
    var now := start;
    last := 0;
    while last < |turns|
      invariant last <= |turns|
      invariant forall i | 0 <= i < last :: turns[i].wake.ChannelClosed?
      invariant forall i | 0 <= i < last ::
          !turns[i].state.Released() && Clock(turns, start, i) < turns[i].state.drainDeadline
      invariant now == Clock(turns, start, last)
    {
      var g := turns[last].state;
      if g.draining && g.activeWork == 0 && g.activeLeases == 0 {
        return DrainReleased, last;
      }
      if !(g.drainDeadline > now) {
        return DrainDeadline, last;
      }
      match turns[last].wake {
        case ContextDone => return DrainCanceled, last;
        case TimerFired => return DrainDeadline, last;
        case ChannelClosed(t) => now := t;
      }
      last := last + 1;
    }
    return StillWaiting, last;
  }

  method WaitForRelease(turns: seq<Turn>) returns (released: bool, last: nat)
    requires forall t | t in turns :: !t.wake.TimerFired?
    ensures last <= |turns|
    ensures released <==> last < |turns| && turns[last].state.activeWork == 0 && turns[last].state.activeLeases == 0
    ensures !released && last < |turns| ==> turns[last].wake.ContextDone?
    ensures forall i | 0 <= i < last ::
        turns[i].wake.ChannelClosed? && (turns[i].state.activeWork != 0 || turns[i].state.activeLeases != 0)
  {
    last := 0;
    while last < |turns|
      invariant last <= |turns|
      invariant forall i | 0 <= i < last ::
          turns[i].wake.ChannelClosed? && (turns[i].state.activeWork != 0 || turns[i].state.activeLeases != 0)
    {
      var g := turns[last].state;
      if g.activeWork == 0 && g.activeLeases == 0 {
        return true, last;
      }
      assert turns[last] in turns;
      if turns[last].wake.ContextDone? {
        return false, last;
      }
      last := last + 1;
    }
    return false, last;
  }
}
