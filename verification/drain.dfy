/** The hub and the gate of one daemon together (internal/daemon/host.go): every
    operation holds one work reservation from its start until its worker has
    returned, and draining waits for the gate. */
module Draining {
  import opened Wrappers
  import opened Gates
  import opened OperationEntries
  import opened OperationEntryInvariant
  import opened OperationEntrySteps
  import opened OperationEntryProgress
  import opened OperationHubModel

  // `external` holds the reservations taken by the rest of the daemon.
  datatype Daemon = Daemon(gate: GateState, hub: Hub, external: set<nat>)

  datatype DaemonAction =
    | GateOnly(g: GateAction)
    | HubOnly(a: Action)
    | StartingOperation(id: string, digest: string, now: int)
    | ReleasingOperation(k: nat)

  ghost predicate DaemonNext(d: Daemon, act: DaemonAction, d': Daemon)
    requires d.hub.options.Valid()
  {
    match act
    case GateOnly(g) =>
      // Others release only what they reserved, as often as they like.
      && (g.ReleasingId? ==> g.id in d.external)
      && d' == d.(gate := ApplyGate(d.gate, g),
                  external := if g.Reserving? && !d.gate.draining then d.external + {d.gate.reservationSeq + 1}
                      else d.external)
    case HubOnly(a) =>
      && !a.Starting? && !(a.Stepping? && a.step.Releasing?)
      && Next(d.hub, a, d'.hub)
      && d' == d.(hub := d'.hub)
    case StartingOperation(id, digest, now) =>
      // The reservation is taken while the hub lock is held.
      && !d.gate.draining
      && Next(d.hub, Starting(id, digest, Some(d.gate.reservationSeq + 1), now), d'.hub)
      && d' == d.(gate := ReserveGate(d.gate, Work, now), hub := d'.hub)
    case ReleasingOperation(k) =>
      && k < |d.hub.entries| && d.hub.entries[k].release.Some?
      && Next(d.hub, Stepping(k, Releasing, 0, false), d'.hub)
      && d' == d.(gate := ReleaseGate(d.gate, d.hub.entries[k].release.value), hub := d'.hub)
  }

  ghost predicate DaemonInit(d: Daemon) {
    && Init(d.hub) && d.external == {}
    && d.gate.reservations == map[] && d.gate.activeWork == 0 && d.gate.activeLeases == 0
  }

  predicate Holding(e: Entry) {
    e.worker.Running? || e.worker.Finished?
  }

  // An operation whose worker has not released it holds its own live reservation.
  ghost predicate HoldsReservation(d: Daemon, k: nat)
    requires k < |d.hub.entries|
  {
    var e := d.hub.entries[k];
    && e.release.Some?
    && e.release.value in d.gate.reservations && d.gate.reservations[e.release.value] == Work
    && e.release.value !in d.external
  }

  ghost predicate DaemonInv(d: Daemon) {
    && HubInv(d.hub) && GateInv(d.gate)
    && (forall id | id in d.external :: id <= d.gate.reservationSeq)
    && (forall k: nat | k < |d.hub.entries| && Holding(d.hub.entries[k]) :: HoldsReservation(d, k))
    && (forall j: nat, k: nat | j < k < |d.hub.entries| && Holding(d.hub.entries[j]) && Holding(d.hub.entries[k]) ::
          d.hub.entries[j].release != d.hub.entries[k].release)
  }

  // What a hub action does to the workers and their reservations.
  lemma HubActionReservations(h: Hub, a: Action, h': Hub)
    requires HubInv(h) && Next(h, a, h')
    ensures |h.entries| <= |h'.entries|
    ensures forall k: nat | k < |h.entries| ::
              && (Holding(h'.entries[k]) ==> Holding(h.entries[k]) && h'.entries[k].release == h.entries[k].release)
              && (a.Stepping? && a.step.Releasing? && a.k == k ==>
                  h.entries[k].worker.Finished? && !Holding(h'.entries[k]))
    ensures if a.Starting? then |h'.entries| == |h.entries| + 1 && h'.entries[|h.entries|].release == a.release
            else |h'.entries| == |h.entries|
  {
    hide HubInv, Inv, Apply, DrainCancel, Enabled, Pruned, CapPruned, Created;
    match a
    case Starting(_, _, _, _) =>
      ValidOptions(h);
      NewlyCreated(h, a);
    case Stepping(k, step, now, stopWins) => OneStep(h, a);
    case CancellingForDrain(nows, stops) =>
      forall k: nat | k < |h.entries|
        ensures h'.entries[k].worker == h.entries[k].worker && h'.entries[k].release == h.entries[k].release
      {
        EntryInvOf(h, k);
        DrainInv(h.options, h.entries[k], nows[k], stops[k]);
      }
    case _ =>
  }

  lemma ValidOptions(h: Hub)
    requires HubInv(h)
    ensures h.options.Valid()
  {
  }

  lemma EntryInvOf(h: Hub, k: nat)
    requires HubInv(h) && k < |h.entries|
    ensures h.options.Valid() && Inv(h.options, h.entries[k])
  {
  }

  lemma OneStep(h: Hub, a: Action)
    requires a.Stepping? && HubInv(h) && a.k < |h.entries| && Enabled(h.entries[a.k], a.step)
    ensures var e := h.entries[a.k];
            var e' := Apply(h.options, e, a.step, a.now, a.stopWins, h.Retains(a.k));
            && (Holding(e') ==> Holding(e) && e'.release == e.release)
            && (a.step.Releasing? ==> e.worker.Finished? && !Holding(e'))
  {
    hide Inv, HubInv, Apply;
    EntryInvOf(h, a.k);
    StepAccounting(h.options, h.entries[a.k], a.step, a.now, a.stopWins, h.Retains(a.k));
  }

  lemma DaemonNextInv(d: Daemon, act: DaemonAction, d': Daemon)
    requires DaemonInv(d) && DaemonNext(d, act, d')
    ensures DaemonInv(d')
  {
    hide HubInv, GateInv, Next;
    match act
    case GateOnly(g) =>
      GateReservations(d.gate, g);
      ApplyGateInv(d.gate, g);
      forall k: nat | k < |d'.hub.entries| && Holding(d'.hub.entries[k]) ensures HoldsReservation(d', k) {
        assert HoldsReservation(d, k);
      }
    case HubOnly(a) =>
      NextInv(d.hub, a, d'.hub);
      HubActionReservations(d.hub, a, d'.hub);
      forall k: nat | k < |d'.hub.entries| && Holding(d'.hub.entries[k]) ensures HoldsReservation(d', k) {
        assert HoldsReservation(d, k);
      }
    case StartingOperation(id, digest, now) =>
      var a := Starting(id, digest, Some(d.gate.reservationSeq + 1), now);
      NextInv(d.hub, a, d'.hub);
      HubActionReservations(d.hub, a, d'.hub);
      GateReservations(d.gate, Reserving(Work, now));
      ApplyGateInv(d.gate, Reserving(Work, now));
      forall k: nat | k < |d'.hub.entries| && Holding(d'.hub.entries[k]) ensures HoldsReservation(d', k) {
        if k < |d.hub.entries| {
          assert HoldsReservation(d, k);
        }
      }
      forall k: nat | k < |d.hub.entries| && Holding(d'.hub.entries[k])
        ensures d'.hub.entries[k].release != d'.hub.entries[|d.hub.entries|].release
      {
        assert HoldsReservation(d, k);
      }
    case ReleasingOperation(k) =>
      var a := Stepping(k, Releasing, 0, false);
      NextInv(d.hub, a, d'.hub);
      HubActionReservations(d.hub, a, d'.hub);
      GateReservations(d.gate, ReleasingId(d.hub.entries[k].release.value));
      ApplyGateInv(d.gate, ReleasingId(d.hub.entries[k].release.value));
      forall j: nat | j < |d'.hub.entries| && Holding(d'.hub.entries[j]) ensures HoldsReservation(d', j) {
        assert HoldsReservation(d, j);
      }
  }

  // Which reservations a gate action keeps.
  lemma GateReservations(g: GateState, a: GateAction)
    requires GateInv(g)
    ensures forall id | id in g.reservations && a != ReleasingId(id) ::
              id in ApplyGate(g, a).reservations && ApplyGate(g, a).reservations[id] == g.reservations[id]
    ensures forall id | id in g.reservations :: id <= g.reservationSeq
    ensures g.reservationSeq <= ApplyGate(g, a).reservationSeq
    ensures a.Reserving? && !g.draining ==>
              && ApplyGate(g, a).reservationSeq == g.reservationSeq + 1
              && g.reservationSeq + 1 in ApplyGate(g, a).reservations
              && ApplyGate(g, a).reservations[g.reservationSeq + 1] == a.kind
  {
  }

  ghost predicate DaemonRun(ds: seq<Daemon>, acts: seq<DaemonAction>) {
    && |ds| == |acts| + 1
    && DaemonInit(ds[0])
    && (forall i: nat | i < |ds| :: ds[i].hub.options == ds[0].hub.options)
    && (forall i: nat | i < |acts| :: DaemonNext(ds[i], acts[i], ds[i + 1]))
  }

  lemma {:induction false} DaemonRunInv(ds: seq<Daemon>, acts: seq<DaemonAction>, i: nat)
    requires DaemonRun(ds, acts) && i < |ds|
    ensures DaemonInv(ds[i])
  {
    hide DaemonInv, DaemonNext;
    if i == 0 {
      InitDaemonInv(ds[0]);
    } else {
      DaemonRunInv(ds, acts, i - 1);
      DaemonNextInv(ds[i - 1], acts[i - 1], ds[i]);
    }
  }

  lemma InitDaemonInv(d: Daemon)
    requires DaemonInit(d)
    ensures DaemonInv(d)
  {
  }

  lemma StillReleased(ds: seq<Daemon>, acts: seq<DaemonAction>, i: nat, j: nat)
    requires DaemonRun(ds, acts) && i <= j < |ds| && ds[i].gate.Released()
    ensures ds[j].gate == ds[i].gate && |ds[j].hub.entries| == |ds[i].hub.entries|
    decreases j - i
  {
    hide DaemonInv, Next;
    if i < j {
      StillReleased(ds, acts, i, j - 1);
      DaemonRunInv(ds, acts, j - 1);
      assert DaemonNext(ds[j - 1], acts[j - 1], ds[j]);
      ReleasedStep(ds[j - 1], acts[j - 1], ds[j]);
    }
  }

  lemma ReleasedStep(d: Daemon, act: DaemonAction, d': Daemon)
    requires DaemonInv(d) && DaemonNext(d, act, d') && d.gate.Released()
    ensures d'.gate == d.gate && |d'.hub.entries| == |d.hub.entries|
  {
    hide HubInv, GateInv, Next;
    NoReservations(d.gate);
    match act
    case HubOnly(a) => HubActionReservations(d.hub, a, d'.hub);
    case ReleasingOperation(k) => HubActionReservations(d.hub, Stepping(k, Releasing, 0, false), d'.hub);
    case _ =>
  }

  lemma NoReservations(g: GateState)
    requires GateInv(g) && g.Released()
    ensures g.reservations == map[]
  {
    NothingReserved(g);
  }

  // When the drain wait reports that everything is released, every operation
  // ever accepted has returned its worker and ended, at that moment and for
  // good, and neither an operation nor a reservation can follow.
  lemma DrainSoundness(ds: seq<Daemon>, acts: seq<DaemonAction>, i: nat, j: nat)
    requires DaemonRun(ds, acts) && i <= j < |ds| && ds[i].gate.Released()
    ensures |ds[j].hub.entries| == |ds[i].hub.entries|
    ensures ds[j].gate.Released() && ds[j].gate.reservations == map[]
    ensures forall k: nat | k < |ds[j].hub.entries| ::
              ds[j].hub.entries[k].terminal
                  && (ds[j].hub.entries[k].worker.Released? || ds[j].hub.entries[k].worker.Done?)
  {
    hide DaemonRun, HubInv, GateInv;
    StillReleased(ds, acts, i, j);
    DaemonRunInv(ds, acts, j);
    var d := ds[j];
    NoReservations(d.gate);
    forall k: nat | k < |d.hub.entries|
      ensures d.hub.entries[k].terminal && (d.hub.entries[k].worker.Released? || d.hub.entries[k].worker.Done?)
    {
      HeldIsLive(d, k);
      EndedWorker(d.hub, k);
    }
  }

  lemma HeldIsLive(d: Daemon, k: nat)
    requires DaemonInv(d) && k < |d.hub.entries|
    ensures Holding(d.hub.entries[k]) ==> d.gate.reservations != map[]
  {
  }

  lemma EndedWorker(h: Hub, k: nat)
    requires HubInv(h) && k < |h.entries|
    ensures !h.entries[k].worker.Running? ==> h.entries[k].terminal
  {
  }

  // From `before` on to `after` nothing was running, reserved or added.
  ghost predicate Drained(before: Daemon, after: Daemon) {
    && |after.hub.entries| == |before.hub.entries|
    && after.gate.Released() && after.gate.reservations == map[]
    && forall k: nat | k < |after.hub.entries| ::
         after.hub.entries[k].terminal && (after.hub.entries[k].worker.Released? || after.hub.entries[k].worker.Done?)
  }

  /** The drain wait of a daemon: its turns look at the gate at some moments of
      the daemon's run, however many states lie between them. When it reports that
      everything is released, that is so from the moment it looked last, for good. */
  method AwaitDrain(
    ghost ds: seq<Daemon>, ghost acts: seq<DaemonAction>, ghost at: seq<nat>, turns: seq<Turn>, start: int)
    returns (result: DrainResult, last: nat)
    requires DaemonRun(ds, acts) && |at| == |turns|
    requires forall i | 0 <= i < |turns| :: at[i] < |ds| && turns[i].state == ds[at[i]].gate
    ensures last <= |turns| && (result == StillWaiting <==> last == |turns|)
    ensures forall i | 0 <= i < last :: !ds[at[i]].gate.Released()
    ensures result == DrainReleased <==> last < |turns| && ds[at[last]].gate.Released()
    ensures result == DrainReleased ==> forall j: nat | at[last] <= j < |ds| :: Drained(ds[at[last]], ds[j])
  {
    hide DaemonRun;
    result, last := WaitForDrain(turns, start);
    if result == DrainReleased {
      forall j: nat | at[last] <= j < |ds| ensures Drained(ds[at[last]], ds[j]) {
        DrainSoundness(ds, acts, at[last], j);
      }
    }
  }
}
