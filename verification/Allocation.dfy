/** The cloud-seat allocation protocol of `CloudMatchService`.

    A `session.create` worker takes the admission guard, reads `retained_cleanup` and then `fresh`,
    POSTs, parks the new seat in `fresh`, releases the guard, waits for the shell's acknowledgement
    and then either accepts the seat or deletes it. `session.stop` runs beside it. Every action
    below is one mutex acquisition or release or one remote answer, so a run of labels is an
    interleaving of any number of workers and stops.

    The service's callers hold `session_routing` from before the POST until the create returns, for
    the whole hand-off and for the whole stop. Whether they do is the parameter `serial`: what does
    not mention it holds of the service by itself. */
module Allocation {
  import opened Wrappers

  type SessionId = nat
  type Actor = nat

  // Where a worker stands inside `finish_create`; every stage but `WaitLock` holds the fresh lock.
  datatype Stage = WaitLock | Deleting | Failed | Recorded | Deleted | Cleaned

  datatype Phase =
    | Idle
    | GuardHeld
    | CancelChecked
    | RetainedClear
    | Admitted
    | Quitting
    | Routed
    | Posted(id: SessionId)
    | Parked(id: SessionId)
    | Merged(id: SessionId)
    | Stored(id: SessionId)
    | Returning(id: SessionId)
    | HandOff(id: SessionId)
    | Awaiting(id: SessionId, delivered: bool)
    | Decided(id: SessionId, accept: bool)
    | Finish(id: SessionId, accept: bool, inCreate: bool, stage: Stage)
    | Leaving
    | Done
  {
    predicate HoldsGuard() {
      GuardHeld? || CancelChecked? || RetainedClear? || Admitted? || Quitting? || Routed?
      || Posted? || Parked? || Merged? || Stored? || (Finish? && inCreate)
    }

    predicate HoldsRouting() {
      Routed? || Posted? || Parked? || Merged? || Stored? || Returning? || Finish? || Leaving?
    }

    predicate HoldsFresh() {
      Finish? && stage != WaitLock
    }

    predicate HasSeat() {
      Posted? || Parked? || Merged? || Stored? || Returning? || HandOff? || Awaiting? || Decided? || Finish?
    }

    // No acceptance of this worker's seat has been decided yet.
    predicate Undecided() {
      !Leaving? && !Done? && !(Decided? && accept) && !(Finish? && accept)
    }
  }

  datatype Worker = Worker(phase: Phase, cancelled: bool, acked: bool)

  datatype Holder = ByWorker(w: Actor) | ByStop(t: Actor)

  /** The service's slots and locks, with the bookkeeping the claims need: `boot` is the record read
      from disk at start-up, `owner` says which worker's POST returned a seat, `inHand` is a seat
      returned but not yet parked, `accepted` and `deleted` are the confirmed outcomes, and `torn`
      holds the seats a hand-off has tried to delete. */
  datatype Slots = Slots(
    serial: bool,
    routing: Option<Holder>,
    guard: Option<Actor>,
    freshSlot: Option<SessionId>,
    freshLock: Option<Actor>,
    retained: Option<SessionId>,
    boot: Option<SessionId>,
    owner: map<SessionId, Actor>,
    inHand: Option<SessionId>,
    accepted: set<SessionId>,
    deleted: set<SessionId>,
    torn: set<SessionId>)

  datatype Action =
    | Cancel
    | Acknowledge
    | TakeGuard
    | Refuse
    | PassCancelCheck
    | PassRetained
    | PassFresh
    | TakeRouting(ownerValid: bool)
    | FailCreate
    | Post(id: SessionId)
    | Park
    | CheckAfterPark
    | CheckAfterMerge
    | ReturnSeat
    | Deliver(sent: bool)
    | Decide
    | LockFresh
    | DeleteSeat(confirmed: bool)
    | Retain
    | ClearCleanup(removed: bool)
    | ReleaseFresh
    | LeaveRouting

  predicate Enabled(k: Worker, g: Slots, a: Action) {
    var p := k.phase;
    match a
    case Cancel => true
    case Acknowledge => true
    case TakeGuard => p.Idle? && g.guard.None?
    case Refuse =>
      p.Idle? || p.GuardHeld? || p.CancelChecked? || p.RetainedClear? || p.Admitted? || p.Routed? || p.Quitting?
    case PassCancelCheck => p.GuardHeld? && !k.cancelled
    case PassRetained => p.CancelChecked? && g.retained.None?
    case PassFresh => p.RetainedClear? && g.freshLock.None? && g.freshSlot.None?
    case TakeRouting(_) => (p.Admitted? || p.Decided?) && g.routing.None?
    case FailCreate => p.Routed?
    case Post(id) => p.Routed? && id !in g.owner && id !in g.deleted && g.boot != Some(id)
    case Park => p.Posted? && g.freshLock.None?
    case CheckAfterPark => p.Parked?
    case CheckAfterMerge => p.Merged?
    case ReturnSeat => p.Stored?
    case Deliver(_) => p.HandOff?
    case Decide => p.Awaiting?
    case LockFresh => p.Finish? && p.stage == WaitLock && g.freshLock.None?
    case DeleteSeat(_) => p.Finish? && p.stage == Deleting
    case Retain => p.Finish? && p.stage == Failed
    case ClearCleanup(_) => p.Finish? && p.stage == Deleted
    case ReleaseFresh => p.Finish? && (p.stage == Recorded || p.stage == Cleaned)
    case LeaveRouting => p.Returning? || p.Leaving?
  }

  // The worker returns; its guard, if it still holds one, is dropped with it.
  function Unguard(p: Phase, g: Slots): Slots {
    if p.HoldsGuard() then g.(guard := None) else g
  }

  function NextPhase(k: Worker, g: Slots, a: Action): Phase
    requires Enabled(k, g, a)
  {
    var p := k.phase;
    match a
    case Cancel => p
    case Acknowledge => p
    case TakeGuard => GuardHeld
    case Refuse => if p.Routed? then Quitting else Done
    case PassCancelCheck => CancelChecked
    case PassRetained => RetainedClear
    case PassFresh => Admitted
    case TakeRouting(ownerValid) =>
      if p.Admitted? then Routed else Finish(p.id, p.accept && ownerValid, false, WaitLock)
    case FailCreate => Leaving
    case Post(id) => Posted(id)
    case Park => Parked(p.id)
    case CheckAfterPark => if k.cancelled then Finish(p.id, false, true, WaitLock) else Merged(p.id)
    case CheckAfterMerge => if k.cancelled then Finish(p.id, false, true, WaitLock) else Stored(p.id)
    case ReturnSeat => Returning(p.id)
    case Deliver(sent) => Awaiting(p.id, !k.cancelled && sent)
    case Decide => Decided(p.id, p.delivered && k.acked && !k.cancelled)
    case LockFresh => if g.freshSlot != Some(p.id) || p.accept then Leaving else p.(stage := Deleting)
    case DeleteSeat(confirmed) => p.(stage := if confirmed then Deleted else Failed)
    case Retain => p.(stage := Recorded)
    case ClearCleanup(_) => p.(stage := Cleaned)
    case ReleaseFresh => Leaving
    case LeaveRouting => if p.Returning? then HandOff(p.id) else Done
  }

  function NextSlots(w: Actor, k: Worker, g: Slots, a: Action): Slots
    requires Enabled(k, g, a)
  {
    var p := k.phase;
    match a
    case TakeGuard => g.(guard := Some(w))
    case Refuse => if p.Routed? then g.(routing := None) else Unguard(p, g)
    case TakeRouting(_) => g.(routing := if g.serial then Some(ByWorker(w)) else None)
    case FailCreate => g.(guard := None)
    case Post(id) => g.(owner := g.owner[id := w], inHand := Some(id))
    case Park => g.(freshSlot := Some(p.id), inHand := None)
    case ReturnSeat => g.(guard := None)
    case LockFresh =>
      if g.freshSlot != Some(p.id) then Unguard(p, g)
      else if p.accept then Unguard(p, g).(freshSlot := None, accepted := g.accepted + {p.id})
      else g.(freshLock := Some(w), torn := g.torn + {p.id})
    case DeleteSeat(confirmed) => if confirmed then g.(deleted := g.deleted + {p.id}) else g
    case Retain => g.(retained := Some(p.id))
    case ClearCleanup(removed) => g.(retained := if g.retained == Some(p.id) && removed then None else g.retained)
    case ReleaseFresh => Unguard(p, g).(freshLock := None, freshSlot := if p.stage == Cleaned then None else g.freshSlot)
    case LeaveRouting => g.(routing := None)
    case _ => g
  }

  function NextWorker(k: Worker, g: Slots, a: Action): Worker
    requires Enabled(k, g, a)
  {
    Worker(NextPhase(k, g, a), k.cancelled || a.Cancel?, k.acked || a.Acknowledge?)
  }

  // ---- session.stop ----

  datatype Stop = Entered | Checked(id: SessionId) | Confirmed(id: SessionId) | Unrecorded(id: SessionId) | Quit | Ended
  {
    predicate HasSeat() {
      Checked? || Confirmed? || Unrecorded?
    }
  }

  datatype StopAction =
    | CheckRecord(id: SessionId)
    | RemoteDelete(confirmed: bool)
    | DropRecord(removed: bool)
    | DropFresh
    | Leave

  predicate StopEnabled(t: Stop, g: Slots, a: StopAction) {
    match a
    case CheckRecord(_) => t.Entered?
    case RemoteDelete(_) => t.Checked?
    case DropRecord(_) => t.Confirmed?
    case DropFresh => t.Unrecorded? && g.freshLock.None?
    case Leave => t.Entered? || t.Quit?
  }

  function NextStop(t: Stop, g: Slots, a: StopAction): Stop
    requires StopEnabled(t, g, a)
  {
    match a
    case CheckRecord(id) => if g.retained == Some(id) then Quit else Checked(id)
    case RemoteDelete(confirmed) => if confirmed then Confirmed(t.id) else Quit
    case DropRecord(_) => Unrecorded(t.id)
    case DropFresh => Quit
    case Leave => Ended
  }

  function StopSlots(t: Stop, g: Slots, a: StopAction): Slots
    requires StopEnabled(t, g, a)
  {
    match a
    case CheckRecord(_) => g
    case RemoteDelete(confirmed) => if confirmed then g.(deleted := g.deleted + {t.id}) else g
    case DropRecord(removed) => g.(retained := if g.retained == Some(t.id) && removed then None else g.retained)
    case DropFresh => g.(freshSlot := if g.freshSlot == Some(t.id) then None else g.freshSlot)
    case Leave => g.(routing := None)
  }

  // ---- Whole runs ----

  datatype State = State(g: Slots, workers: map<Actor, Worker>, stops: map<Actor, Stop>)

  datatype Label =
    | Spawn(w: Actor)
    | Work(w: Actor, a: Action)
    | StopEnter(t: Actor)
    | Halt(t: Actor, s: StopAction)

  predicate Can(s: State, l: Label) {
    match l
    case Spawn(w) => w !in s.workers
    case Work(w, a) => w in s.workers && Enabled(s.workers[w], s.g, a)
    case StopEnter(t) => t !in s.stops && s.g.routing.None?
    case Halt(t, a) => t in s.stops && StopEnabled(s.stops[t], s.g, a)
  }

  function Apply(s: State, l: Label): State
    requires Can(s, l)
  {
    match l
    case Spawn(w) => s.(workers := s.workers[w := Worker(Idle, false, false)])
    case Work(w, a) =>
      State(NextSlots(w, s.workers[w], s.g, a), s.workers[w := NextWorker(s.workers[w], s.g, a)], s.stops)
    case StopEnter(t) =>
      s.(g := s.g.(routing := if s.g.serial then Some(ByStop(t)) else None), stops := s.stops[t := Entered])
    case Halt(t, a) =>
      State(StopSlots(s.stops[t], s.g, a), s.workers, s.stops[t := NextStop(s.stops[t], s.g, a)])
  }

  // Start-up: the cleanup record, if any, was left by an earlier process.
  function Boot(record: Option<SessionId>, serial: bool): State {
    State(Slots(serial, None, None, None, None, record, record, map[], None, {}, {}, {}), map[], map[])
  }

  predicate IsRun(s: State, run: seq<Label>)
    decreases |run|
  {
    run == [] || (Can(s, run[0]) && IsRun(Apply(s, run[0]), run[1..]))
  }

  function End(s: State, run: seq<Label>): State
    requires IsRun(s, run)
    decreases |run|
  {
    if run == [] then s else End(Apply(s, run[0]), run[1..])
  }

  // ---- The inductive invariant: one clause set for the slots, one per worker, one per stop ----

  predicate SlotsInv(g: Slots) {
    && (forall id | id in g.owner ::
          id in g.accepted || id in g.deleted || g.freshSlot == Some(id) || g.retained == Some(id) || g.inHand == Some(id))
    && (g.boot.Some? ==> g.boot.value !in g.owner && (g.boot.value in g.deleted || g.retained == g.boot))
    && (g.freshSlot.Some? ==> g.freshSlot.value in g.owner)
    && (g.retained.Some? ==> g.retained == g.boot || g.retained.value in g.owner)
    && (g.freshSlot.Some? && g.retained.Some? ==> g.freshSlot == g.retained || g.retained.value in g.deleted)
    && (g.inHand.Some? ==>
          && g.freshSlot.None? && g.guard.Some?
          && g.inHand.value in g.owner && g.owner[g.inHand.value] == g.guard.value
          && (g.retained.Some? ==> g.retained.value in g.deleted))
    && g.accepted !! g.torn
    && g.accepted <= g.owner.Keys && g.torn <= g.owner.Keys
  }

  predicate SeatInv(w: Actor, k: Worker, g: Slots)
    requires k.phase.HasSeat()
  {
    var p := k.phase;
    && p.id in g.owner && g.owner[p.id] == w
    && p.id !in g.accepted
    && (g.retained == Some(p.id) ==> p.Finish? && p.stage == Recorded)
    && (if p.Posted? then g.inHand == Some(p.id) else g.freshSlot == Some(p.id) || p.id in g.deleted)
    && (p.HoldsFresh() ==> g.freshSlot == Some(p.id) && !p.accept)
    && (p.Finish? && (p.stage == Deleted || p.stage == Cleaned) ==> p.id in g.deleted)
    && (p.Decided? && p.accept ==> k.acked)
    && (p.Finish? && p.accept ==> k.acked && !p.inCreate)
    && (!p.HoldsFresh() ==> p.id !in g.torn)
  }

  predicate WorkerInv(w: Actor, k: Worker, g: Slots) {
    var p := k.phase;
    && (p.HoldsGuard() <==> g.guard == Some(w))
    && (p.HoldsFresh() <==> g.freshLock == Some(w))
    && (p.RetainedClear? && g.retained.Some? ==> g.freshSlot == g.retained || g.retained.value in g.deleted)
    && (p.Admitted? || p.Routed? ==> g.freshSlot.None? && (g.retained.Some? ==> g.retained.value in g.deleted))
    && (p.HoldsGuard() && !p.Posted? ==> g.inHand.None?)
    && (p.HasSeat() ==> SeatInv(w, k, g))
  }

  // Who holds `session_routing`.
  predicate WorkerRouted(w: Actor, k: Worker, g: Slots) {
    g.serial ==> (k.phase.HoldsRouting() <==> g.routing == Some(ByWorker(w)))
  }

  predicate StopRouted(t: Actor, stop: Stop, g: Slots) {
    g.serial ==> (!stop.Ended? <==> g.routing == Some(ByStop(t)))
  }

  predicate StopInv(t: Stop, g: Slots) {
    t.Confirmed? || t.Unrecorded? ==> t.id in g.deleted
  }

  predicate Inv(s: State) {
    && SlotsInv(s.g)
    && (s.g.guard.Some? ==> s.g.guard.value in s.workers)
    && (s.g.freshLock.Some? ==> s.g.freshLock.value in s.workers)
    && (forall w | w in s.workers :: WorkerInv(w, s.workers[w], s.g))
    && (forall t | t in s.stops :: StopInv(s.stops[t], s.g))
  }

  // The actions before the POST, those of a create and its hand-off, and those inside `finish_create`.
  predicate GuardAction(a: Action) {
    a.Cancel? || a.Acknowledge? || a.TakeGuard? || a.Refuse? || a.PassCancelCheck? || a.PassRetained? || a.PassFresh?
    || a.TakeRouting? || a.FailCreate?
  }

  predicate CreateAction(a: Action) {
    a.Post? || a.Park? || a.CheckAfterPark? || a.CheckAfterMerge? || a.ReturnSeat? || a.Deliver? || a.Decide?
    || a.LeaveRouting?
  }

  predicate FinishAction(a: Action) {
    a.LockFresh? || a.DeleteSeat? || a.Retain? || a.ClearCleanup? || a.ReleaseFresh?
  }

  lemma FinishIsLast(a: Action)
    requires !GuardAction(a) && !CreateAction(a)
    ensures FinishAction(a)
  {
  }

  lemma GuardOwnStep(w: Actor, k: Worker, g: Slots, a: Action)
    requires GuardAction(a)
    requires SlotsInv(g) && WorkerInv(w, k, g) && Enabled(k, g, a)
    ensures WorkerInv(w, NextWorker(k, g, a), NextSlots(w, k, g, a))
  {
  }

  lemma CreateOwnStep(w: Actor, k: Worker, g: Slots, a: Action)
    requires CreateAction(a)
    requires SlotsInv(g) && WorkerInv(w, k, g) && Enabled(k, g, a)
    ensures WorkerInv(w, NextWorker(k, g, a), NextSlots(w, k, g, a))
  {
  }

  lemma LockOwnStep(w: Actor, k: Worker, g: Slots, a: Action)
    requires a.LockFresh?
    requires SlotsInv(g) && WorkerInv(w, k, g) && Enabled(k, g, a)
    ensures WorkerInv(w, NextWorker(k, g, a), NextSlots(w, k, g, a))
  {
  }

  lemma SeatOwnStep(w: Actor, k: Worker, g: Slots, a: Action)
    requires FinishAction(a) && !a.LockFresh?
    requires SlotsInv(g) && WorkerInv(w, k, g) && Enabled(k, g, a)
    ensures WorkerInv(w, NextWorker(k, g, a), NextSlots(w, k, g, a))
  {
  }

  lemma FinishOwnStep(w: Actor, k: Worker, g: Slots, a: Action)
    requires FinishAction(a)
    requires SlotsInv(g) && WorkerInv(w, k, g) && Enabled(k, g, a)
    ensures WorkerInv(w, NextWorker(k, g, a), NextSlots(w, k, g, a))
  {
    hide SlotsInv, WorkerInv, Enabled, NextWorker, NextSlots;
    if a.LockFresh? {
      LockOwnStep(w, k, g, a);
    } else {
      SeatOwnStep(w, k, g, a);
    }
  }

  lemma OwnStep(w: Actor, k: Worker, g: Slots, a: Action)
    requires SlotsInv(g) && WorkerInv(w, k, g) && Enabled(k, g, a)
    ensures WorkerInv(w, NextWorker(k, g, a), NextSlots(w, k, g, a))
  {
    hide *;
    if GuardAction(a) {
      GuardOwnStep(w, k, g, a);
    } else if CreateAction(a) {
      CreateOwnStep(w, k, g, a);
    } else {
      FinishIsLast(a);
      FinishOwnStep(w, k, g, a);
    }
  }

  lemma GuardSlotsStep(w: Actor, k: Worker, g: Slots, a: Action)
    requires GuardAction(a)
    requires SlotsInv(g) && WorkerInv(w, k, g) && Enabled(k, g, a)
    ensures SlotsInv(NextSlots(w, k, g, a))
  {
  }

  lemma CreateSlotsStep(w: Actor, k: Worker, g: Slots, a: Action)
    requires CreateAction(a)
    requires SlotsInv(g) && WorkerInv(w, k, g) && Enabled(k, g, a)
    ensures SlotsInv(NextSlots(w, k, g, a))
  {
  }

  lemma FinishSlotsStep(w: Actor, k: Worker, g: Slots, a: Action)
    requires FinishAction(a)
    requires SlotsInv(g) && WorkerInv(w, k, g) && Enabled(k, g, a)
    ensures SlotsInv(NextSlots(w, k, g, a))
  {
  }

  lemma SlotsStep(w: Actor, k: Worker, g: Slots, a: Action)
    requires SlotsInv(g) && WorkerInv(w, k, g) && Enabled(k, g, a)
    ensures SlotsInv(NextSlots(w, k, g, a))
  {
    hide *;
    if GuardAction(a) {
      GuardSlotsStep(w, k, g, a);
    } else if CreateAction(a) {
      CreateSlotsStep(w, k, g, a);
    } else {
      FinishIsLast(a);
      FinishSlotsStep(w, k, g, a);
    }
  }

  // Non-interference: a worker's step keeps what any other worker knows.
  lemma GuardOtherStep(w: Actor, k: Worker, g: Slots, a: Action, v: Actor, u: Worker)
    requires GuardAction(a)
    requires SlotsInv(g) && WorkerInv(w, k, g) && Enabled(k, g, a)
    requires v != w && WorkerInv(v, u, g)
    ensures WorkerInv(v, u, NextSlots(w, k, g, a))
  {
  }

  lemma CreateOtherStep(w: Actor, k: Worker, g: Slots, a: Action, v: Actor, u: Worker)
    requires CreateAction(a)
    requires SlotsInv(g) && WorkerInv(w, k, g) && Enabled(k, g, a)
    requires v != w && WorkerInv(v, u, g)
    ensures WorkerInv(v, u, NextSlots(w, k, g, a))
  {
  }

  lemma FinishOtherStep(w: Actor, k: Worker, g: Slots, a: Action, v: Actor, u: Worker)
    requires FinishAction(a)
    requires SlotsInv(g) && WorkerInv(w, k, g) && Enabled(k, g, a)
    requires v != w && WorkerInv(v, u, g)
    ensures WorkerInv(v, u, NextSlots(w, k, g, a))
  {
  }

  lemma OtherStep(w: Actor, k: Worker, g: Slots, a: Action, v: Actor, u: Worker)
    requires SlotsInv(g) && WorkerInv(w, k, g) && Enabled(k, g, a)
    requires v != w && WorkerInv(v, u, g)
    ensures WorkerInv(v, u, NextSlots(w, k, g, a))
  {
    hide *;
    if GuardAction(a) {
      GuardOtherStep(w, k, g, a, v, u);
    } else if CreateAction(a) {
      CreateOtherStep(w, k, g, a, v, u);
    } else {
      FinishIsLast(a);
      FinishOtherStep(w, k, g, a, v, u);
    }
  }

  lemma WorkKeepsStop(w: Actor, k: Worker, g: Slots, a: Action, t: Stop)
    requires Enabled(k, g, a) && StopInv(t, g)
    ensures StopInv(t, NextSlots(w, k, g, a))
  {
  }

  lemma LocksStayOwned(w: Actor, k: Worker, g: Slots, a: Action)
    requires Enabled(k, g, a)
    ensures
      var g' := NextSlots(w, k, g, a);
      && (g'.guard.Some? ==> g'.guard == g.guard || g'.guard == Some(w))
      && (g'.freshLock.Some? ==> g'.freshLock == g.freshLock || g'.freshLock == Some(w))
  {
  }

  lemma StopStep(t: Stop, g: Slots, a: StopAction)
    requires SlotsInv(g) && StopInv(t, g) && StopEnabled(t, g, a)
    ensures SlotsInv(StopSlots(t, g, a)) && StopInv(NextStop(t, g, a), StopSlots(t, g, a))
  {
  }

  lemma DropFreshKeepsWorker(t: Stop, g: Slots, v: Actor, u: Worker)
    requires SlotsInv(g) && StopInv(t, g) && StopEnabled(t, g, DropFresh) && WorkerInv(v, u, g)
    ensures WorkerInv(v, u, StopSlots(t, g, DropFresh))
  {
  }

  lemma DropRecordKeepsWorker(t: Stop, g: Slots, removed: bool, v: Actor, u: Worker)
    requires SlotsInv(g) && StopInv(t, g) && StopEnabled(t, g, DropRecord(removed)) && WorkerInv(v, u, g)
    ensures WorkerInv(v, u, StopSlots(t, g, DropRecord(removed)))
  {
  }

  lemma DeleteKeepsWorker(t: Stop, g: Slots, confirmed: bool, v: Actor, u: Worker)
    requires StopEnabled(t, g, RemoteDelete(confirmed)) && WorkerInv(v, u, g)
    ensures WorkerInv(v, u, StopSlots(t, g, RemoteDelete(confirmed)))
  {
  }

  lemma LeaveKeepsWorker(t: Stop, g: Slots, v: Actor, u: Worker)
    requires StopEnabled(t, g, Leave) && WorkerInv(v, u, g)
    ensures WorkerInv(v, u, StopSlots(t, g, Leave))
  {
  }

  lemma StopKeepsWorker(t: Stop, g: Slots, a: StopAction, v: Actor, u: Worker)
    requires SlotsInv(g) && StopInv(t, g) && StopEnabled(t, g, a) && WorkerInv(v, u, g)
    ensures WorkerInv(v, u, StopSlots(t, g, a))
  {
    hide SlotsInv, WorkerInv, StopInv;
    match a
    case CheckRecord(_) =>
    case RemoteDelete(confirmed) => DeleteKeepsWorker(t, g, confirmed, v, u);
    case DropRecord(removed) => DropRecordKeepsWorker(t, g, removed, v, u);
    case DropFresh => DropFreshKeepsWorker(t, g, v, u);
    case Leave => LeaveKeepsWorker(t, g, v, u);
  }

  lemma WorkKeepsInv(s: State, w: Actor, a: Action)
    requires Inv(s) && Can(s, Work(w, a))
    ensures Inv(Apply(s, Work(w, a)))
  {
    hide SlotsInv, WorkerInv, StopInv, NextSlots, NextWorker, Enabled;
    OwnStep(w, s.workers[w], s.g, a);
    SlotsStep(w, s.workers[w], s.g, a);
    var s' := Apply(s, Work(w, a));
    forall v | v in s'.workers
      ensures WorkerInv(v, s'.workers[v], s'.g)
    {
      if v != w {
        OtherStep(w, s.workers[w], s.g, a, v, s.workers[v]);
      }
    }
    LocksStayOwned(w, s.workers[w], s.g, a);
    forall t | t in s'.stops
      ensures StopInv(s'.stops[t], s'.g)
    {
      WorkKeepsStop(w, s.workers[w], s.g, a, s.stops[t]);
    }
  }

  lemma HaltKeepsInv(s: State, t: Actor, a: StopAction)
    requires Inv(s) && Can(s, Halt(t, a))
    ensures Inv(Apply(s, Halt(t, a)))
  {
    hide SlotsInv, WorkerInv;
    StopStep(s.stops[t], s.g, a);
    var s' := Apply(s, Halt(t, a));
    forall v | v in s'.workers
      ensures WorkerInv(v, s'.workers[v], s'.g)
    {
      StopKeepsWorker(s.stops[t], s.g, a, v, s.workers[v]);
    }
  }

  lemma SpawnKeepsInv(s: State, w: Actor)
    requires Inv(s) && Can(s, Spawn(w))
    ensures Inv(Apply(s, Spawn(w)))
  {
  }

  lemma EnterKeepsInv(s: State, t: Actor)
    requires Inv(s) && Can(s, StopEnter(t))
    ensures Inv(Apply(s, StopEnter(t)))
  {
    var s' := Apply(s, StopEnter(t));
    assert SlotsInv(s'.g);
    forall w | w in s'.workers
      ensures WorkerInv(w, s'.workers[w], s'.g)
    {
      assert WorkerInv(w, s.workers[w], s.g);
    }
  }

  lemma StepKeepsInv(s: State, l: Label)
    requires Inv(s) && Can(s, l)
    ensures Inv(Apply(s, l))
  {
    match l
    case Spawn(w) => SpawnKeepsInv(s, w);
    case Work(w, a) => WorkKeepsInv(s, w, a);
    case StopEnter(t) => EnterKeepsInv(s, t);
    case Halt(t, a) => HaltKeepsInv(s, t, a);
  }

  lemma {:induction false} RunKeepsInv(s: State, run: seq<Label>)
    requires Inv(s) && IsRun(s, run)
    ensures Inv(End(s, run))
    decreases |run|
  {
    if run != [] {
      StepKeepsInv(s, run[0]);
      RunKeepsInv(Apply(s, run[0]), run[1..]);
    }
  }

  // ---- Main results ----

  predicate Outstanding(s: State, id: SessionId) {
    (id in s.g.owner || s.g.boot == Some(id)) && id !in s.g.accepted && id !in s.g.deleted
  }

  /** No leaked seat: after any interleaving every seat a POST returned has been accepted, has been
      confirmed deleted, is in one of the two slots, or is in the hand of the one guard holder. */
  lemma NoLeakedSeat(record: Option<SessionId>, serial: bool, run: seq<Label>, id: SessionId)
    requires IsRun(Boot(record, serial), run)
    requires id in End(Boot(record, serial), run).g.owner
    ensures
      var s := End(Boot(record, serial), run);
      || id in s.g.accepted
      || id in s.g.deleted
      || s.g.freshSlot == Some(id)
      || s.g.retained == Some(id)
      || (exists w :: w in s.workers && s.g.guard == Some(w) && s.workers[w].phase == Posted(id))
  {
    RunKeepsInv(Boot(record, serial), run);
    var s := End(Boot(record, serial), run);
    if s.g.inHand == Some(id) {
      assert WorkerInv(s.g.guard.value, s.workers[s.g.guard.value], s.g);
    }
  }

  /** At most one seat is ever outstanding, counting the one an earlier process left behind. */
  lemma SingleOutstanding(record: Option<SessionId>, serial: bool, run: seq<Label>, a: SessionId, b: SessionId)
    requires IsRun(Boot(record, serial), run)
    requires Outstanding(End(Boot(record, serial), run), a) && Outstanding(End(Boot(record, serial), run), b)
    ensures a == b
  {
    RunKeepsInv(Boot(record, serial), run);
  }

  /** Writing `fresh` never overwrites another allocation. */
  lemma ParkFindsSlotEmpty(record: Option<SessionId>, serial: bool, run: seq<Label>, w: Actor)
    requires IsRun(Boot(record, serial), run) && Can(End(Boot(record, serial), run), Work(w, Park))
    ensures End(Boot(record, serial), run).g.freshSlot.None?
  {
    RunKeepsInv(Boot(record, serial), run);
    var s := End(Boot(record, serial), run);
    assert WorkerInv(w, s.workers[w], s.g);
  }

  lemma WorkDropsRecord(w: Actor, k: Worker, g: Slots, a: Action)
    requires SlotsInv(g) && WorkerInv(w, k, g) && Enabled(k, g, a) && g.retained.Some?
    ensures NextSlots(w, k, g, a).retained != g.retained ==> g.retained.value in g.deleted
  {
  }

  /** A retained record is dropped, or replaced by another, only once exactly that seat is
      confirmed deleted. */
  lemma RecordDroppedOnlyAfterDelete(record: Option<SessionId>, serial: bool, run: seq<Label>, l: Label, id: SessionId)
    requires IsRun(Boot(record, serial), run) && Can(End(Boot(record, serial), run), l)
    requires End(Boot(record, serial), run).g.retained == Some(id)
    requires Apply(End(Boot(record, serial), run), l).g.retained != Some(id)
    ensures id in End(Boot(record, serial), run).g.deleted
  {
    RunKeepsInv(Boot(record, serial), run);
    var s := End(Boot(record, serial), run);
    StepDropsRecord(s, l, id);
  }

  lemma StepDropsRecord(s: State, l: Label, id: SessionId)
    requires Inv(s) && Can(s, l) && s.g.retained == Some(id) && Apply(s, l).g.retained != Some(id)
    ensures id in s.g.deleted
  {
    hide SlotsInv, WorkerInv, Enabled, NextSlots;
    if l.Work? {
      WorkDropsRecord(l.w, s.workers[l.w], s.g, l.a);
    } else if l.Halt? {
      assert StopInv(s.stops[l.t], s.g);
    }
  }

  lemma WorkAccepts(w: Actor, k: Worker, g: Slots, a: Action)
    requires WorkerInv(w, k, g) && Enabled(k, g, a)
    ensures
      var accepted := NextSlots(w, k, g, a).accepted;
      || accepted == g.accepted
      || (a.LockFresh? && k.phase.Finish? && k.phase.accept && k.acked && g.freshSlot == Some(k.phase.id)
          && k.phase.id in g.owner && g.owner[k.phase.id] == w && accepted == g.accepted + {k.phase.id})
    ensures g.owner.Keys <= NextSlots(w, k, g, a).owner.Keys
    ensures forall id | id in g.owner :: NextSlots(w, k, g, a).owner[id] == g.owner[id]
  {
  }

  /** A seat enters `accepted` only when its own worker, whose receipt arrived, finds it in `fresh`;
      and no hand-off ever tries to delete an accepted seat. */
  lemma AcceptanceNeedsReceipt(record: Option<SessionId>, serial: bool, run: seq<Label>, l: Label, id: SessionId)
    requires IsRun(Boot(record, serial), run) && Can(End(Boot(record, serial), run), l)
    requires id in Apply(End(Boot(record, serial), run), l).g.accepted
    ensures
      var s := End(Boot(record, serial), run);
      && id in s.g.owner && id !in s.g.torn && id !in Apply(s, l).g.torn
      && (id in s.g.accepted
          || (l == Work(s.g.owner[id], LockFresh) && s.workers[l.w].acked && s.g.freshSlot == Some(id)))
  {
    RunKeepsInv(Boot(record, serial), run);
    var s := End(Boot(record, serial), run);
    StepKeepsInv(s, l);
    hide WorkerInv, Enabled, NextSlots;
    if l.Work? {
      WorkAccepts(l.w, s.workers[l.w], s.g, l.a);
    }
  }

  // No accepted seat is this worker's.
  predicate Unaccepted(w: Actor, g: Slots) {
    forall id | id in g.accepted :: id in g.owner && g.owner[id] != w
  }

  // A worker whose acceptance is still open has no accepted seat.
  ghost predicate OpenInv(s: State) {
    && s.g.accepted <= s.g.owner.Keys
    && (forall id | id in s.g.owner :: s.g.owner[id] in s.workers)
    && (forall w | w in s.workers && !s.workers[w].phase.Leaving? && !s.workers[w].phase.Done? :: Unaccepted(w, s.g))
  }

  lemma WorkOwns(w: Actor, k: Worker, g: Slots, a: Action)
    requires Enabled(k, g, a)
    ensures forall id | id in NextSlots(w, k, g, a).owner ::
              (id in g.owner && NextSlots(w, k, g, a).owner[id] == g.owner[id]) || NextSlots(w, k, g, a).owner[id] == w
    ensures NextSlots(w, k, g, a).accepted != g.accepted ==> NextPhase(k, g, a).Leaving?
    ensures k.phase.Leaving? || k.phase.Done? ==> NextPhase(k, g, a).Leaving? || NextPhase(k, g, a).Done?
  {
  }

  lemma StepKeepsOpen(s: State, l: Label)
    requires Inv(s) && Can(s, l) && OpenInv(s)
    ensures OpenInv(Apply(s, l))
  {
    hide SlotsInv, WorkerInv, Enabled, NextSlots, NextPhase;
    if l.Work? {
      WorkAccepts(l.w, s.workers[l.w], s.g, l.a);
      WorkOwns(l.w, s.workers[l.w], s.g, l.a);
    }
  }

  // A cancelled worker that can no longer have its seat accepted.
  predicate Doomed(s: State, w: Actor) {
    && w in s.workers && s.workers[w].cancelled
    && !(s.workers[w].phase.Decided? && s.workers[w].phase.accept)
    && !(s.workers[w].phase.Finish? && s.workers[w].phase.accept)
    && Unaccepted(w, s.g)
  }

  lemma CancelledStaysUndecided(k: Worker, g: Slots, a: Action)
    requires Enabled(k, g, a) && k.cancelled
    requires !(k.phase.Decided? && k.phase.accept) && !(k.phase.Finish? && k.phase.accept)
    ensures
      var k' := NextWorker(k, g, a);
      k'.cancelled && !(k'.phase.Decided? && k'.phase.accept) && !(k'.phase.Finish? && k'.phase.accept)
  {
  }

  lemma StepKeepsDoomed(s: State, l: Label, w: Actor)
    requires Inv(s) && Can(s, l) && Doomed(s, w)
    ensures Doomed(Apply(s, l), w)
  {
    hide SlotsInv, WorkerInv, Enabled, NextSlots, NextWorker;
    if l.Work? {
      WorkAccepts(l.w, s.workers[l.w], s.g, l.a);
      if l.w == w {
        CancelledStaysUndecided(s.workers[w], s.g, l.a);
      }
    }
  }

  lemma {:induction false} RunKeepsDoomed(s: State, run: seq<Label>, w: Actor)
    requires Inv(s) && IsRun(s, run) && Doomed(s, w)
    ensures Doomed(End(s, run), w)
    decreases |run|
  {
    hide Doomed;
    if run != [] {
      StepKeepsInv(s, run[0]);
      StepKeepsDoomed(s, run[0], w);
      RunKeepsDoomed(Apply(s, run[0]), run[1..], w);
    }
  }

  lemma {:induction false} RunKeepsOpen(s: State, run: seq<Label>)
    requires Inv(s) && IsRun(s, run) && OpenInv(s)
    ensures Inv(End(s, run)) && OpenInv(End(s, run))
    decreases |run|
  {
    hide OpenInv;
    if run != [] {
      StepKeepsInv(s, run[0]);
      StepKeepsOpen(s, run[0]);
      RunKeepsOpen(Apply(s, run[0]), run[1..]);
    }
  }

  /** Cancellation wins: once a worker is cancelled before its acceptance decision, no continuation
      ever accepts a seat of that worker. */
  lemma CancellationWins(record: Option<SessionId>, serial: bool, before: seq<Label>, after: seq<Label>, w: Actor, id: SessionId)
    requires IsRun(Boot(record, serial), before)
    requires
      var s := End(Boot(record, serial), before);
      w in s.workers && s.workers[w].cancelled && s.workers[w].phase.Undecided() && IsRun(s, after)
    ensures
      var g := End(End(Boot(record, serial), before), after).g;
      id in g.accepted ==> id in g.owner && g.owner[id] != w
  {
    RunKeepsOpen(Boot(record, serial), before);
    hide OpenInv;
    var s := End(Boot(record, serial), before);
    assert Unaccepted(w, s.g) by {
      OpenIsUnaccepted(s, w);
    }
    RunKeepsDoomed(s, after, w);
  }

  lemma OpenIsUnaccepted(s: State, w: Actor)
    requires OpenInv(s) && w in s.workers && s.workers[w].phase.Undecided()
    ensures Unaccepted(w, s.g)
  {
  }

  // ---- What stands behind an acceptance ----

  // The worker's receipt was sent, its acknowledgement came, and its owner was found valid at the hand-off.
  predicate Vouched(past: seq<Label>, w: Actor) {
    && Work(w, Deliver(true)) in past && Work(w, Acknowledge) in past && Work(w, TakeRouting(true)) in past
  }

  predicate WorkerHistory(past: seq<Label>, w: Actor, k: Worker) {
    && (k.acked ==> Work(w, Acknowledge) in past)
    && (k.phase.Awaiting? && k.phase.delivered ==> Work(w, Deliver(true)) in past)
    && (k.phase.Decided? && k.phase.accept ==> Work(w, Deliver(true)) in past && Work(w, Acknowledge) in past)
    && (k.phase.Finish? && k.phase.accept ==> Vouched(past, w))
  }

  ghost predicate Historic(past: seq<Label>, s: State) {
    && (forall w | w in s.workers :: WorkerHistory(past, w, s.workers[w]))
    && (forall id | id in s.g.accepted :: id in s.g.owner && Vouched(past, s.g.owner[id]))
  }

  lemma WorkKeepsHistory(past: seq<Label>, w: Actor, k: Worker, g: Slots, a: Action)
    requires Enabled(k, g, a) && WorkerHistory(past, w, k)
    ensures WorkerHistory(past + [Work(w, a)], w, NextWorker(k, g, a))
  {
  }

  lemma PastGrows(past: seq<Label>, l: Label, w: Actor)
    ensures Vouched(past, w) ==> Vouched(past + [l], w)
    ensures forall k :: WorkerHistory(past, w, k) ==> WorkerHistory(past + [l], w, k)
  {
    assert forall m | m in past :: m in past + [l];
  }

  lemma StepKeepsHistory(past: seq<Label>, s: State, l: Label)
    requires Inv(s) && Can(s, l) && Historic(past, s)
    ensures Historic(past + [l], Apply(s, l))
  {
    hide SlotsInv, WorkerInv, Enabled, NextSlots, NextWorker, WorkerHistory, Vouched;
    var s' := Apply(s, l);
    forall w | w in s'.workers
      ensures WorkerHistory(past + [l], w, s'.workers[w])
    {
      PastGrows(past, l, w);
      if l.Work? && l.w == w {
        WorkKeepsHistory(past, w, s.workers[w], s.g, l.a);
      } else if l.Spawn? && l.w == w {
        NewcomerHasNoHistory(past + [l], w);
      }
    }
    forall id | id in s'.g.accepted
      ensures id in s'.g.owner && Vouched(past + [l], s'.g.owner[id])
    {
      if l.Work? {
        WorkAccepts(l.w, s.workers[l.w], s.g, l.a);
        AcceptingIsVouched(past, l.w, s.workers[l.w], s.g, l.a);
      }
      PastGrows(past, l, s'.g.owner[id]);
    }
  }

  lemma NewcomerHasNoHistory(past: seq<Label>, w: Actor)
    ensures WorkerHistory(past, w, Worker(Idle, false, false))
  {
  }

  lemma AcceptingIsVouched(past: seq<Label>, w: Actor, k: Worker, g: Slots, a: Action)
    requires Enabled(k, g, a) && WorkerHistory(past, w, k)
    ensures NextSlots(w, k, g, a).accepted != g.accepted ==> Vouched(past, w)
  {
  }

  lemma {:induction false} RunKeepsHistory(past: seq<Label>, s: State, run: seq<Label>)
    requires Inv(s) && Historic(past, s) && IsRun(s, run)
    ensures Historic(past + run, End(s, run))
    decreases |run|
  {
    hide Historic, Inv;
    if run == [] {
      assert past + run == past;
    } else {
      StepKeepsInv(s, run[0]);
      StepKeepsHistory(past, s, run[0]);
      RunKeepsHistory(past + [run[0]], Apply(s, run[0]), run[1..]);
      assert past + [run[0]] + run[1..] == past + run;
    }
  }

  /** A seat is accepted only in a run in which its own worker's result was delivered, the shell
      acknowledged it, and the caller's check of the seat's owner at the hand-off succeeded. */
  lemma AcceptedWasVouched(record: Option<SessionId>, serial: bool, run: seq<Label>, id: SessionId)
    requires IsRun(Boot(record, serial), run) && id in End(Boot(record, serial), run).g.accepted
    ensures
      var owner := End(Boot(record, serial), run).g.owner;
      && id in owner
      && Work(owner[id], Deliver(true)) in run && Work(owner[id], Acknowledge) in run
      && Work(owner[id], TakeRouting(true)) in run
  {
    RunKeepsHistory([], Boot(record, serial), run);
    assert [] + run == run;
  }

  // The state with worker `w` and the slots replaced.
  function With(s: State, w: Actor, k: Worker, g: Slots): State {
    State(g, s.workers[w := k], s.stops)
  }

  lemma Ahead(s: State, l: Label, next: State, run: seq<Label>)
    requires Can(s, l) && Apply(s, l) == next && IsRun(next, run)
    ensures IsRun(s, [l] + run) && End(s, [l] + run) == End(next, run)
  {
    assert ([l] + run)[1..] == run;
  }

  lemma Stays(s: State)
    ensures IsRun(s, []) && End(s, []) == s
  {
  }

  // Worker `w` waits for the verdict on seat `id`, which is parked, and nobody is in its way.
  predicate Undisturbed(s: State, w: Actor, id: SessionId) {
    && w in s.workers && s.workers[w].phase.Awaiting? && s.workers[w].phase.id == id
    && s.g.routing.None? && s.g.freshLock.None? && s.g.freshSlot == Some(id)
  }

  // The slots inside a hand-off of worker `w`.
  function Inside(s: State, w: Actor): Slots {
    s.g.(routing := if s.g.serial then Some(ByWorker(w)) else None)
  }

  // Up to the fresh lock: the verdict is an acceptance exactly if all four agree.
  lemma HandOffDecides(s: State, w: Actor, id: SessionId, ownerValid: bool, rest: seq<Label>)
    requires Undisturbed(s, w, id)
    requires
      var k := s.workers[w];
      var accept := k.phase.delivered && k.acked && !k.cancelled && ownerValid;
      IsRun(With(s, w, k.(phase := Finish(id, accept, false, WaitLock)), Inside(s, w)), rest)
    ensures
      var k := s.workers[w];
      var accept := k.phase.delivered && k.acked && !k.cancelled && ownerValid;
      var run := [Work(w, Decide)] + ([Work(w, TakeRouting(ownerValid))] + rest);
      && IsRun(s, run)
      && End(s, run) == End(With(s, w, k.(phase := Finish(id, accept, false, WaitLock)), Inside(s, w)), rest)
  {
    hide IsRun, End;
    var k := s.workers[w];
    var decided := With(s, w, k.(phase := Decided(id, k.phase.delivered && k.acked && !k.cancelled)), s.g);
    var accept := k.phase.delivered && k.acked && !k.cancelled && ownerValid;
    var waiting := With(s, w, k.(phase := Finish(id, accept, false, WaitLock)), Inside(s, w));
    assert Apply(decided, Work(w, TakeRouting(ownerValid))) == waiting;
    Ahead(decided, Work(w, TakeRouting(ownerValid)), waiting, rest);
    Ahead(s, Work(w, Decide), decided, [Work(w, TakeRouting(ownerValid))] + rest);
  }

  /** A hand-off that nobody disturbs accepts the seat if the receipt was delivered, the acknowledgement
      came, nothing was cancelled and the owner is still valid: three steps are open and lead there. */
  lemma VouchedSeatIsAccepted(s: State, w: Actor, id: SessionId)
    requires Undisturbed(s, w, id)
    requires s.workers[w].phase.delivered && s.workers[w].acked && !s.workers[w].cancelled
    ensures
      var run := [Work(w, Decide)] + ([Work(w, TakeRouting(true))] + ([Work(w, LockFresh)] + []));
      && IsRun(s, run) && id in End(s, run).g.accepted && End(s, run).g.freshSlot == None
      && End(s, run).g.deleted == s.g.deleted
  {
    hide IsRun, End;
    var k, g := s.workers[w], Inside(s, w);
    var waiting := With(s, w, k.(phase := Finish(id, true, false, WaitLock)), g);
    var done := With(s, w, k.(phase := Leaving), g.(freshSlot := None, accepted := g.accepted + {id}));
    assert Apply(waiting, Work(w, LockFresh)) == done;
    Stays(done);
    Ahead(waiting, Work(w, LockFresh), done, []);
    HandOffDecides(s, w, id, true, [Work(w, LockFresh)] + []);
  }

  /** If any of the four is missing, the same hand-off deletes the seat, and keeps it on record, with the
      slot still taken, if the delete fails. */
  lemma UnvouchedSeatIsDeleted(s: State, w: Actor, id: SessionId, ownerValid: bool, confirmed: bool)
    requires Undisturbed(s, w, id)
    requires !(s.workers[w].phase.delivered && s.workers[w].acked && !s.workers[w].cancelled && ownerValid)
    ensures
      var ending := if confirmed then [Work(w, ClearCleanup(true))] + ([Work(w, ReleaseFresh)] + [])
                    else [Work(w, Retain)] + ([Work(w, ReleaseFresh)] + []);
      var run := [Work(w, Decide)] + ([Work(w, TakeRouting(ownerValid))]
                 + ([Work(w, LockFresh)] + ([Work(w, DeleteSeat(confirmed))] + ending)));
      && IsRun(s, run) && End(s, run).g.accepted == s.g.accepted && End(s, run).g.freshLock == None
      && (if confirmed then id in End(s, run).g.deleted && End(s, run).g.freshSlot == None && End(s, run).g.retained != Some(id)
          else End(s, run).g.retained == Some(id) && End(s, run).g.freshSlot == Some(id))
  {
    hide IsRun, End;
    var k, g := s.workers[w], Inside(s, w);
    var held := g.(freshLock := Some(w), torn := g.torn + {id});
    var f := Finish(id, false, false, Deleting);
    var deleting := With(s, w, k.(phase := f), held);
    var ending := if confirmed then [Work(w, ClearCleanup(true))] + ([Work(w, ReleaseFresh)] + [])
                  else [Work(w, Retain)] + ([Work(w, ReleaseFresh)] + []);
    if confirmed {
      DeleteConfirmed(s, w, id, k, held);
    } else {
      DeleteRefused(s, w, id, k, held);
    }
    var waiting := With(s, w, k.(phase := Finish(id, false, false, WaitLock)), g);
    assert Apply(waiting, Work(w, LockFresh)) == deleting;
    Ahead(waiting, Work(w, LockFresh), deleting, [Work(w, DeleteSeat(confirmed))] + ending);
    HandOffDecides(s, w, id, ownerValid, [Work(w, LockFresh)] + ([Work(w, DeleteSeat(confirmed))] + ending));
  }

  lemma Moves(s: State, w: Actor, k: Worker, g: Slots, a: Action, k': Worker, g': Slots, rest: seq<Label>)
    requires Enabled(k, g, a) && k' == NextWorker(k, g, a) && g' == NextSlots(w, k, g, a)
    requires IsRun(With(s, w, k', g'), rest)
    ensures IsRun(With(s, w, k, g), [Work(w, a)] + rest)
    ensures End(With(s, w, k, g), [Work(w, a)] + rest) == End(With(s, w, k', g'), rest)
  {
    hide IsRun, End, Enabled, NextWorker, NextSlots;
    assert Apply(With(s, w, k, g), Work(w, a)) == With(s, w, k', g');
    Ahead(With(s, w, k, g), Work(w, a), With(s, w, k', g'), rest);
  }

  // The end of a hand-off that had to delete its seat.
  lemma HandOffReleases(s: State, w: Actor, id: SessionId, k: Worker, g: Slots, stage: Stage)
    requires k.phase == Finish(id, false, false, stage) && (stage == Recorded || stage == Cleaned)
    requires g.freshLock == Some(w) && g.freshSlot == Some(id)
    ensures
      var run := [Work(w, ReleaseFresh)] + [];
      var g' := g.(freshLock := None, freshSlot := if stage == Cleaned then None else Some(id));
      IsRun(With(s, w, k, g), run) && End(With(s, w, k, g), run) == With(s, w, k.(phase := Leaving), g')
  {
    hide IsRun, End;
    var g' := g.(freshLock := None, freshSlot := if stage == Cleaned then None else Some(id));
    Stays(With(s, w, k.(phase := Leaving), g'));
    Moves(s, w, k, g, ReleaseFresh, k.(phase := Leaving), g', []);
  }

  lemma DeleteConfirmed(s: State, w: Actor, id: SessionId, k: Worker, held: Slots)
    requires held.freshSlot == Some(id) && held.freshLock == Some(w)
    ensures
      var start := With(s, w, k.(phase := Finish(id, false, false, Deleting)), held);
      var run := [Work(w, DeleteSeat(true))] + ([Work(w, ClearCleanup(true))] + ([Work(w, ReleaseFresh)] + []));
      && IsRun(start, run) && End(start, run).g.accepted == held.accepted && End(start, run).g.freshLock == None
      && id in End(start, run).g.deleted && End(start, run).g.freshSlot == None && End(start, run).g.retained != Some(id)
  {
    hide IsRun, End, Can, Apply;
    var f := Finish(id, false, false, Deleting);
    var gone := held.(deleted := held.deleted + {id});
    var clean := gone.(retained := if gone.retained == Some(id) then None else gone.retained);
    HandOffReleases(s, w, id, k.(phase := f.(stage := Cleaned)), clean, Cleaned);
    Moves(s, w, k.(phase := f.(stage := Deleted)), gone, ClearCleanup(true), k.(phase := f.(stage := Cleaned)), clean,
          [Work(w, ReleaseFresh)] + []);
    Moves(s, w, k.(phase := f), held, DeleteSeat(true), k.(phase := f.(stage := Deleted)), gone,
          [Work(w, ClearCleanup(true))] + ([Work(w, ReleaseFresh)] + []));
  }

  lemma DeleteRefused(s: State, w: Actor, id: SessionId, k: Worker, held: Slots)
    requires held.freshSlot == Some(id) && held.freshLock == Some(w)
    ensures
      var start := With(s, w, k.(phase := Finish(id, false, false, Deleting)), held);
      var run := [Work(w, DeleteSeat(false))] + ([Work(w, Retain)] + ([Work(w, ReleaseFresh)] + []));
      && IsRun(start, run) && End(start, run).g.accepted == held.accepted && End(start, run).g.freshLock == None
      && End(start, run).g.retained == Some(id) && End(start, run).g.freshSlot == Some(id)
  {
    hide IsRun, End, Can, Apply;
    var f := Finish(id, false, false, Deleting);
    var kept := held.(retained := Some(id));
    HandOffReleases(s, w, id, k.(phase := f.(stage := Recorded)), kept, Recorded);
    Moves(s, w, k.(phase := f.(stage := Failed)), held, Retain, k.(phase := f.(stage := Recorded)), kept,
          [Work(w, ReleaseFresh)] + []);
    Moves(s, w, k.(phase := f), held, DeleteSeat(false), k.(phase := f.(stage := Failed)), held,
          [Work(w, Retain)] + ([Work(w, ReleaseFresh)] + []));
  }

  // ---- What becomes of a returned seat ----

  predicate Settled(g: Slots, id: SessionId) {
    id in g.accepted || id in g.deleted || g.retained == Some(id)
  }

  predicate SeatTracked(k: Worker, g: Slots, id: SessionId) {
    || (k.phase.HasSeat() && k.phase.id == id && (k.phase.Finish? && k.phase.stage == Recorded ==> Settled(g, id)))
    || ((k.phase.Leaving? || k.phase.Done?) && Settled(g, id))
  }

  // Every returned seat is still with its worker, or settled.
  ghost predicate Tracked(s: State) {
    forall id | id in s.g.owner :: s.g.owner[id] in s.workers && SeatTracked(s.workers[s.g.owner[id]], s.g, id)
  }

  lemma WorkTracks(w: Actor, k: Worker, g: Slots, a: Action, id: SessionId)
    requires SlotsInv(g) && WorkerInv(w, k, g) && Enabled(k, g, a)
    requires id in NextSlots(w, k, g, a).owner && NextSlots(w, k, g, a).owner[id] == w
    requires id in g.owner ==> g.owner[id] == w && SeatTracked(k, g, id)
    ensures SeatTracked(NextWorker(k, g, a), NextSlots(w, k, g, a), id)
  {
    hide *;
    if GuardAction(a) {
      GuardWorkTracks(w, k, g, a, id);
    } else if CreateAction(a) {
      CreateWorkTracks(w, k, g, a, id);
    } else {
      FinishIsLast(a);
      FinishWorkTracks(w, k, g, a, id);
    }
  }

  lemma GuardWorkTracks(w: Actor, k: Worker, g: Slots, a: Action, id: SessionId)
    requires GuardAction(a) && SlotsInv(g) && WorkerInv(w, k, g) && Enabled(k, g, a)
    requires id in NextSlots(w, k, g, a).owner && NextSlots(w, k, g, a).owner[id] == w
    requires id in g.owner ==> g.owner[id] == w && SeatTracked(k, g, id)
    ensures SeatTracked(NextWorker(k, g, a), NextSlots(w, k, g, a), id)
  {
  }

  lemma CreateWorkTracks(w: Actor, k: Worker, g: Slots, a: Action, id: SessionId)
    requires CreateAction(a) && SlotsInv(g) && WorkerInv(w, k, g) && Enabled(k, g, a)
    requires id in NextSlots(w, k, g, a).owner && NextSlots(w, k, g, a).owner[id] == w
    requires id in g.owner ==> g.owner[id] == w && SeatTracked(k, g, id)
    ensures SeatTracked(NextWorker(k, g, a), NextSlots(w, k, g, a), id)
  {
  }

  lemma FinishWorkTracks(w: Actor, k: Worker, g: Slots, a: Action, id: SessionId)
    requires FinishAction(a) && SlotsInv(g) && WorkerInv(w, k, g) && Enabled(k, g, a)
    requires id in NextSlots(w, k, g, a).owner && NextSlots(w, k, g, a).owner[id] == w
    requires id in g.owner ==> g.owner[id] == w && SeatTracked(k, g, id)
    ensures SeatTracked(NextWorker(k, g, a), NextSlots(w, k, g, a), id)
  {
  }

  lemma WorkKeepsSettled(w: Actor, k: Worker, g: Slots, a: Action, id: SessionId)
    requires SlotsInv(g) && WorkerInv(w, k, g) && Enabled(k, g, a) && Settled(g, id)
    ensures Settled(NextSlots(w, k, g, a), id)
  {
  }

  lemma StopKeepsSettled(t: Stop, g: Slots, a: StopAction, id: SessionId)
    requires StopInv(t, g) && StopEnabled(t, g, a) && Settled(g, id)
    ensures Settled(StopSlots(t, g, a), id) && StopSlots(t, g, a).owner == g.owner
  {
  }

  lemma HaltKeepsOwners(t: Stop, g: Slots, a: StopAction)
    requires StopEnabled(t, g, a)
    ensures StopSlots(t, g, a).owner == g.owner
  {
  }

  lemma StepKeepsTracked(s: State, l: Label)
    requires Inv(s) && Can(s, l) && Tracked(s)
    ensures Tracked(Apply(s, l))
  {
    hide SlotsInv, WorkerInv, Enabled, NextSlots, NextWorker, StopEnabled, StopSlots, NextStop, Settled;
    var s' := Apply(s, l);
    if l.Work? {
      WorkOwns(l.w, s.workers[l.w], s.g, l.a);
      WorkAccepts(l.w, s.workers[l.w], s.g, l.a);
    } else if l.Halt? {
      HaltKeepsOwners(s.stops[l.t], s.g, l.s);
    }
    forall id | id in s'.g.owner
      ensures s'.g.owner[id] in s'.workers && SeatTracked(s'.workers[s'.g.owner[id]], s'.g, id)
    {
      if Settled(s.g, id) {
        StepKeepsSettled(s, l, id);
      }
      if l.Work? && s'.g.owner[id] == l.w {
        hide SeatTracked;
        WorkTracks(l.w, s.workers[l.w], s.g, l.a, id);
      }
    }
  }

  lemma StepKeepsSettled(s: State, l: Label, id: SessionId)
    requires Inv(s) && Can(s, l) && Settled(s.g, id)
    ensures Settled(Apply(s, l).g, id)
  {
    hide SlotsInv, WorkerInv, Enabled, NextSlots, NextWorker, StopEnabled, StopSlots, NextStop;
    if l.Work? {
      WorkKeepsSettled(l.w, s.workers[l.w], s.g, l.a, id);
    } else if l.Halt? {
      StopKeepsSettled(s.stops[l.t], s.g, l.s, id);
    }
  }

  lemma {:induction false} RunKeepsTracked(s: State, run: seq<Label>)
    requires Inv(s) && Tracked(s) && IsRun(s, run)
    ensures Tracked(End(s, run))
    decreases |run|
  {
    hide Tracked, Inv;
    if run != [] {
      StepKeepsInv(s, run[0]);
      StepKeepsTracked(s, run[0]);
      RunKeepsTracked(Apply(s, run[0]), run[1..]);
    }
  }

  /** No worker walks away from its seat: once it has left, or is only leaving, the hand-off, the seat it
      was returned is accepted, confirmed deleted, or on record for a later cleanup. */
  lemma SeatIsSettled(record: Option<SessionId>, serial: bool, run: seq<Label>, id: SessionId)
    requires IsRun(Boot(record, serial), run) && id in End(Boot(record, serial), run).g.owner
    ensures
      var s := End(Boot(record, serial), run);
      var w := s.g.owner[id];
      && w in s.workers
      && (s.workers[w].phase.Leaving? || s.workers[w].phase.Done? ==>
            id in s.g.accepted || id in s.g.deleted || s.g.retained == Some(id))
      && (!(s.workers[w].phase.Leaving? || s.workers[w].phase.Done?) ==>
            s.workers[w].phase.HasSeat() && s.workers[w].phase.id == id)
  {
    RunKeepsTracked(Boot(record, serial), run);
  }

  /** A stop whose delete is confirmed leaves its seat deleted, off the record and out of the fresh slot,
      whether or not a worker still waits for it. */
  lemma ConfirmedStopClears(s: State, t: Actor, id: SessionId)
    requires t in s.stops && s.stops[t] == Checked(id) && s.g.freshLock.None?
    ensures
      var run := [Halt(t, RemoteDelete(true))] + ([Halt(t, DropRecord(true))] + ([Halt(t, DropFresh)] + []));
      && IsRun(s, run)
      && var g := End(s, run).g;
      && id in g.deleted && g.retained == (if s.g.retained == Some(id) then None else s.g.retained)
      && g.freshSlot == (if s.g.freshSlot == Some(id) then None else s.g.freshSlot) && g.accepted == s.g.accepted
  {
    hide IsRun, End;
    var g1 := s.g.(deleted := s.g.deleted + {id});
    var g2 := g1.(retained := if g1.retained == Some(id) then None else g1.retained);
    var g3 := g2.(freshSlot := if g2.freshSlot == Some(id) then None else g2.freshSlot);
    var s1 := State(g1, s.workers, s.stops[t := Confirmed(id)]);
    var s2 := State(g2, s.workers, s.stops[t := Unrecorded(id)]);
    var s3 := State(g3, s.workers, s.stops[t := Quit]);
    StopMoves(s, t, RemoteDelete(true), s1);
    StopMoves(s1, t, DropRecord(true), s2);
    StopMoves(s2, t, DropFresh, s3);
    hide Can, Apply;
    Stays(s3);
    Ahead(s2, Halt(t, DropFresh), s3, []);
    Ahead(s1, Halt(t, DropRecord(true)), s2, [Halt(t, DropFresh)] + []);
    Ahead(s, Halt(t, RemoteDelete(true)), s1, [Halt(t, DropRecord(true))] + ([Halt(t, DropFresh)] + []));
  }

  lemma StopMoves(s: State, t: Actor, a: StopAction, next: State)
    requires t in s.stops && StopEnabled(s.stops[t], s.g, a)
    requires next.g == StopSlots(s.stops[t], s.g, a) && next.workers == s.workers
    requires next.stops == s.stops[t := NextStop(s.stops[t], s.g, a)]
    ensures Can(s, Halt(t, a)) && Apply(s, Halt(t, a)) == next
  {
  }

  // ---- Cancelling a create ----

  // Cancelled before its last check, a worker has nothing to return.
  predicate Withheld(k: Worker) {
    && k.cancelled
    && !(k.phase.Stored? || k.phase.Returning? || k.phase.HandOff? || k.phase.Awaiting? || k.phase.Decided?)
    && !(k.phase.Finish? && !k.phase.inCreate)
  }

  lemma StepKeepsWithheld(s: State, l: Label, w: Actor)
    requires Can(s, l) && w in s.workers && Withheld(s.workers[w])
    ensures w in Apply(s, l).workers && Withheld(Apply(s, l).workers[w])
  {
    hide NextSlots;
  }

  /** A create cancelled before its last check, be it ahead of the POST, during it or after it, never
      hands its seat to the caller: no continuation of the run reaches the hand-off. */
  lemma {:induction false} CancelledCreateReturnsNothing(s: State, run: seq<Label>, w: Actor)
    requires IsRun(s, run) && w in s.workers && s.workers[w].cancelled
    requires
      var p := s.workers[w].phase;
      && !(p.Stored? || p.Returning? || p.HandOff? || p.Awaiting? || p.Decided?) && !(p.Finish? && !p.inCreate)
    ensures w in End(s, run).workers
    ensures
      var p := End(s, run).workers[w].phase;
      && !(p.Stored? || p.Returning? || p.HandOff? || p.Awaiting? || p.Decided?) && !(p.Finish? && !p.inCreate)
    decreases |run|
  {
    hide Can, Apply;
    if run != [] {
      StepKeepsWithheld(s, run[0], w);
      CancelledCreateReturnsNothing(Apply(s, run[0]), run[1..], w);
    }
  }

  /** Either check sends a cancelled create to the deletion of its seat, without an acceptance. */
  lemma CancelledSeatIsWithdrawn(s: State, w: Actor, a: Action)
    requires Can(s, Work(w, a)) && s.workers[w].cancelled && (a == CheckAfterPark || a == CheckAfterMerge)
    ensures
      var p := s.workers[w].phase;
      && Apply(s, Work(w, a)).workers[w].phase == Finish(p.id, false, true, WaitLock)
      && Apply(s, Work(w, a)).g == s.g
  {
  }

  /** A create cancelled before it was admitted never gets to a POST. */
  lemma {:induction false} CancelledCreateIsNotAdmitted(s: State, run: seq<Label>, w: Actor)
    requires IsRun(s, run) && w in s.workers && s.workers[w].cancelled
    requires s.workers[w].phase.Idle? || s.workers[w].phase.GuardHeld? || s.workers[w].phase.Done?
    ensures w in End(s, run).workers
    ensures
      var p := End(s, run).workers[w].phase;
      p.Idle? || p.GuardHeld? || p.Done?
    decreases |run|
  {
    hide Can, Apply;
    if run != [] {
      StepRefusesCancelled(s, run[0], w);
      CancelledCreateIsNotAdmitted(Apply(s, run[0]), run[1..], w);
    }
  }

  lemma StepRefusesCancelled(s: State, l: Label, w: Actor)
    requires Can(s, l) && w in s.workers && s.workers[w].cancelled
    requires s.workers[w].phase.Idle? || s.workers[w].phase.GuardHeld? || s.workers[w].phase.Done?
    ensures
      var t := Apply(s, l);
      && w in t.workers && t.workers[w].cancelled
      && (t.workers[w].phase.Idle? || t.workers[w].phase.GuardHeld? || t.workers[w].phase.Done?)
  {
    hide NextSlots;
  }

  // ---- Agreement of the two slots ----

  /** If the two slots name different seats, the recorded one is already confirmed deleted. */
  lemma DisagreementIsHarmless(record: Option<SessionId>, serial: bool, run: seq<Label>)
    requires IsRun(Boot(record, serial), run)
    ensures
      var g := End(Boot(record, serial), run).g;
      g.freshSlot.Some? && g.retained.Some? && g.freshSlot != g.retained ==> g.retained.value in g.deleted
  {
    RunKeepsInv(Boot(record, serial), run);
  }

  // Whoever is inside a create, a hand-off or a stop, and nobody else, holds `session_routing`.
  ghost predicate RoutingInv(s: State) {
    && s.g.serial
    && (forall w | w in s.workers :: WorkerRouted(w, s.workers[w], s.g))
    && (forall t | t in s.stops :: StopRouted(t, s.stops[t], s.g))
    && (s.g.routing.Some? ==>
          match s.g.routing.value
          case ByWorker(w) => w in s.workers
          case ByStop(t) => t in s.stops)
  }

  lemma WorkRoutes(w: Actor, k: Worker, g: Slots, a: Action)
    requires Enabled(k, g, a) && g.serial && WorkerRouted(w, k, g)
    ensures
      var g' := NextSlots(w, k, g, a);
      && g'.serial && WorkerRouted(w, NextWorker(k, g, a), g')
      && (g'.routing == g.routing || (g.routing == None && g'.routing == Some(ByWorker(w)))
          || (g.routing == Some(ByWorker(w)) && g'.routing == None))
  {
  }

  lemma StopRoutes(t: Actor, stop: Stop, g: Slots, a: StopAction)
    requires StopEnabled(stop, g, a) && g.serial && StopRouted(t, stop, g)
    ensures
      var g' := StopSlots(stop, g, a);
      && g'.serial && StopRouted(t, NextStop(stop, g, a), g')
      && (g'.routing == g.routing || (g.routing == Some(ByStop(t)) && g'.routing == None))
  {
  }

  lemma StepKeepsRouting(s: State, l: Label)
    requires RoutingInv(s) && Can(s, l)
    ensures RoutingInv(Apply(s, l))
  {
    hide Enabled, NextSlots, NextWorker, StopEnabled, StopSlots, NextStop;
    match l {
      case Work(w, a) => WorkRoutes(w, s.workers[w], s.g, a);
      case Halt(t, a) => StopRoutes(t, s.stops[t], s.g, a);
      case _ =>
    }
  }

  lemma {:induction false} RunKeepsRouting(s: State, run: seq<Label>)
    requires RoutingInv(s) && IsRun(s, run)
    ensures RoutingInv(End(s, run))
    decreases |run|
  {
    hide RoutingInv, Apply, Can;
    if run != [] {
      StepKeepsRouting(s, run[0]);
      RunKeepsRouting(Apply(s, run[0]), run[1..]);
    }
  }

  lemma BootIsUnrouted(record: Option<SessionId>)
    ensures RoutingInv(Boot(record, true))
  {
  }

  /** As the service is called, in every run at most one worker is inside a create or a hand-off, at most
      one stop is under way, and never both. */
  lemma RoutingIsExclusive(record: Option<SessionId>, run: seq<Label>, w: Actor, v: Actor, t: Actor, u: Actor)
    requires IsRun(Boot(record, true), run)
    ensures
      var s := End(Boot(record, true), run);
      var inside := w in s.workers && s.workers[w].phase.HoldsRouting();
      var stopping := t in s.stops && !s.stops[t].Ended?;
      && (inside && v in s.workers && s.workers[v].phase.HoldsRouting() ==> v == w)
      && (stopping && u in s.stops && !s.stops[u].Ended? ==> u == t)
      && !(inside && stopping)
  {
    BootIsUnrouted(record);
    RunKeepsRouting(Boot(record, true), run);
  }

  predicate SlotsAgree(g: Slots) {
    && (g.freshSlot.Some? && g.retained.Some? ==> g.freshSlot == g.retained)
    && (g.inHand.Some? ==> g.retained.None?)
  }

  predicate WorkerAgrees(k: Worker, g: Slots) {
    && (k.phase.RetainedClear? ==> g.retained.None? || g.freshSlot == g.retained)
    && (k.phase.Admitted? || k.phase.Routed? ==> g.retained.None?)
  }

  predicate StopAgrees(t: Stop, g: Slots) {
    t.HasSeat() ==> g.retained != Some(t.id)
  }

  predicate Agree(s: State) {
    && SlotsAgree(s.g)
    && (forall w | w in s.workers :: WorkerAgrees(s.workers[w], s.g))
    && (forall t | t in s.stops :: StopAgrees(s.stops[t], s.g))
  }

  lemma GuardWorkAgrees(w: Actor, k: Worker, g: Slots, a: Action)
    requires GuardAction(a)
    requires SlotsInv(g) && WorkerInv(w, k, g) && Enabled(k, g, a) && SlotsAgree(g) && WorkerAgrees(k, g)
    ensures SlotsAgree(NextSlots(w, k, g, a)) && WorkerAgrees(NextWorker(k, g, a), NextSlots(w, k, g, a))
  {
  }

  lemma CreateWorkAgrees(w: Actor, k: Worker, g: Slots, a: Action)
    requires CreateAction(a)
    requires SlotsInv(g) && WorkerInv(w, k, g) && Enabled(k, g, a) && SlotsAgree(g) && WorkerAgrees(k, g)
    ensures SlotsAgree(NextSlots(w, k, g, a)) && WorkerAgrees(NextWorker(k, g, a), NextSlots(w, k, g, a))
  {
  }

  lemma FinishWorkAgrees(w: Actor, k: Worker, g: Slots, a: Action)
    requires FinishAction(a)
    requires SlotsInv(g) && WorkerInv(w, k, g) && Enabled(k, g, a) && SlotsAgree(g) && WorkerAgrees(k, g)
    ensures SlotsAgree(NextSlots(w, k, g, a)) && WorkerAgrees(NextWorker(k, g, a), NextSlots(w, k, g, a))
  {
  }

  lemma WorkAgrees(w: Actor, k: Worker, g: Slots, a: Action)
    requires SlotsInv(g) && WorkerInv(w, k, g) && Enabled(k, g, a) && SlotsAgree(g) && WorkerAgrees(k, g)
    ensures SlotsAgree(NextSlots(w, k, g, a)) && WorkerAgrees(NextWorker(k, g, a), NextSlots(w, k, g, a))
  {
    hide *;
    if GuardAction(a) {
      GuardWorkAgrees(w, k, g, a);
    } else if CreateAction(a) {
      CreateWorkAgrees(w, k, g, a);
    } else {
      FinishIsLast(a);
      FinishWorkAgrees(w, k, g, a);
    }
  }

  lemma GuardWorkLeavesOthersAgreed(w: Actor, k: Worker, g: Slots, a: Action, v: Actor, u: Worker)
    requires GuardAction(a)
    requires SlotsInv(g) && WorkerInv(w, k, g) && Enabled(k, g, a) && v != w && WorkerInv(v, u, g)
    requires SlotsAgree(g) && WorkerAgrees(k, g) && WorkerAgrees(u, g)
    ensures WorkerAgrees(u, NextSlots(w, k, g, a))
  {
  }

  lemma CreateWorkLeavesOthersAgreed(w: Actor, k: Worker, g: Slots, a: Action, v: Actor, u: Worker)
    requires CreateAction(a)
    requires SlotsInv(g) && WorkerInv(w, k, g) && Enabled(k, g, a) && v != w && WorkerInv(v, u, g)
    requires SlotsAgree(g) && WorkerAgrees(k, g) && WorkerAgrees(u, g)
    ensures WorkerAgrees(u, NextSlots(w, k, g, a))
  {
  }

  lemma FinishWorkLeavesOthersAgreed(w: Actor, k: Worker, g: Slots, a: Action, v: Actor, u: Worker)
    requires FinishAction(a)
    requires SlotsInv(g) && WorkerInv(w, k, g) && Enabled(k, g, a) && v != w && WorkerInv(v, u, g)
    requires SlotsAgree(g) && WorkerAgrees(k, g) && WorkerAgrees(u, g)
    ensures WorkerAgrees(u, NextSlots(w, k, g, a))
  {
  }

  lemma WorkLeavesOthersAgreed(w: Actor, k: Worker, g: Slots, a: Action, v: Actor, u: Worker)
    requires SlotsInv(g) && WorkerInv(w, k, g) && Enabled(k, g, a) && v != w && WorkerInv(v, u, g)
    requires SlotsAgree(g) && WorkerAgrees(k, g) && WorkerAgrees(u, g)
    ensures WorkerAgrees(u, NextSlots(w, k, g, a))
  {
    hide *;
    if GuardAction(a) {
      GuardWorkLeavesOthersAgreed(w, k, g, a, v, u);
    } else if CreateAction(a) {
      CreateWorkLeavesOthersAgreed(w, k, g, a, v, u);
    } else {
      FinishIsLast(a);
      FinishWorkLeavesOthersAgreed(w, k, g, a, v, u);
    }
  }

  lemma WorkLeavesStopAgreed(w: Actor, k: Worker, g: Slots, a: Action, t: Stop)
    requires Enabled(k, g, a) && StopAgrees(t, g) && (!t.HasSeat() || !k.phase.Finish?)
    ensures StopAgrees(t, NextSlots(w, k, g, a))
  {
  }

  // The routing lock keeps a stop with a seat out of every hand-off.
  lemma NeverBoth(s: State, w: Actor, t: Actor)
    requires RoutingInv(s) && w in s.workers && t in s.stops
    ensures !s.stops[t].HasSeat() || !s.workers[w].phase.Finish?
  {
    assert WorkerRouted(w, s.workers[w], s.g) && StopRouted(t, s.stops[t], s.g);
  }

  lemma HaltAgrees(t: Stop, g: Slots, a: StopAction, v: Actor, u: Worker)
    requires SlotsInv(g) && StopInv(t, g) && StopEnabled(t, g, a) && SlotsAgree(g) && StopAgrees(t, g)
    requires WorkerInv(v, u, g) && WorkerAgrees(u, g)
    ensures WorkerAgrees(u, StopSlots(t, g, a))
  {
  }

  lemma HaltKeepsSlotsAgree(t: Stop, g: Slots, a: StopAction)
    requires StopEnabled(t, g, a) && SlotsAgree(g) && StopAgrees(t, g)
    ensures SlotsAgree(StopSlots(t, g, a)) && StopAgrees(NextStop(t, g, a), StopSlots(t, g, a))
  {
  }

  lemma HaltLeavesOthersAgreed(t: Stop, g: Slots, a: StopAction, other: Stop)
    requires StopEnabled(t, g, a) && StopAgrees(other, g)
    ensures StopAgrees(other, StopSlots(t, g, a))
  {
  }

  lemma WorkKeepsAgree(s: State, w: Actor, a: Action)
    requires Inv(s) && RoutingInv(s) && Can(s, Work(w, a)) && Agree(s)
    ensures Agree(Apply(s, Work(w, a)))
  {
    hide SlotsInv, WorkerInv, Enabled, NextSlots, NextWorker, RoutingInv, SlotsAgree, WorkerAgrees, StopAgrees;
    var s', k := Apply(s, Work(w, a)), s.workers[w];
    WorkAgrees(w, k, s.g, a);
    forall v | v in s'.workers
      ensures WorkerAgrees(s'.workers[v], s'.g)
    {
      if v != w {
        WorkLeavesOthersAgreed(w, k, s.g, a, v, s.workers[v]);
      }
    }
    forall t | t in s'.stops
      ensures StopAgrees(s'.stops[t], s'.g)
    {
      NeverBoth(s, w, t);
      WorkLeavesStopAgreed(w, k, s.g, a, s.stops[t]);
    }
  }

  lemma HaltKeepsAgree(s: State, t: Actor, a: StopAction)
    requires Inv(s) && Can(s, Halt(t, a)) && Agree(s)
    ensures Agree(Apply(s, Halt(t, a)))
  {
    hide SlotsInv, WorkerInv, StopEnabled, StopSlots, NextStop, SlotsAgree, WorkerAgrees, StopAgrees;
    var s' := Apply(s, Halt(t, a));
    HaltKeepsSlotsAgree(s.stops[t], s.g, a);
    forall v | v in s'.workers
      ensures WorkerAgrees(s'.workers[v], s'.g)
    {
      HaltAgrees(s.stops[t], s.g, a, v, s.workers[v]);
    }
    forall other | other in s'.stops
      ensures StopAgrees(s'.stops[other], s'.g)
    {
      if other != t {
        HaltLeavesOthersAgreed(s.stops[t], s.g, a, s.stops[other]);
      }
    }
  }

  lemma StepKeepsAgree(s: State, l: Label)
    requires Inv(s) && RoutingInv(s) && Can(s, l) && Agree(s)
    ensures Agree(Apply(s, l))
  {
    match l
    case Work(w, a) => WorkKeepsAgree(s, w, a);
    case Halt(t, a) => HaltKeepsAgree(s, t, a);
    case _ =>
  }

  lemma {:induction false} RunKeepsAgree(s: State, run: seq<Label>)
    requires Inv(s) && RoutingInv(s) && Agree(s) && IsRun(s, run)
    ensures Agree(End(s, run))
    decreases |run|
  {
    hide Inv, RoutingInv, Agree;
    if run != [] {
      StepKeepsInv(s, run[0]);
      StepKeepsRouting(s, run[0]);
      StepKeepsAgree(s, run[0]);
      RunKeepsAgree(Apply(s, run[0]), run[1..]);
    }
  }

  /** As the service is called, `fresh` and `retained` name the same seat whenever both are set, and no
      worker goes on to a POST beside a record: in every run, whatever the cleanup file does. */
  lemma SlotsAlwaysAgree(record: Option<SessionId>, run: seq<Label>)
    requires IsRun(Boot(record, true), run)
    ensures
      var s := End(Boot(record, true), run);
      && (s.g.freshSlot.Some? && s.g.retained.Some? ==> s.g.freshSlot == s.g.retained)
      && (forall w | w in s.workers && (s.workers[w].phase.Admitted? || s.workers[w].phase.Routed?) :: s.g.retained.None?)
  {
    RunKeepsAgree(Boot(record, true), run);
  }

  // ---- Concrete runs ----

  predicate Reaches(run: seq<Label>, s: State) {
    IsRun(Boot(None, s.g.serial), run) && End(Boot(None, s.g.serial), run) == s
  }

  lemma {:induction false} Extend(s: State, run: seq<Label>, l: Label)
    requires IsRun(s, run) && Can(End(s, run), l)
    ensures IsRun(s, run + [l]) && End(s, run + [l]) == Apply(End(s, run), l)
    decreases |run|
  {
    if run == [] {
      assert IsRun(Apply(s, l), []);
      assert (run + [l])[1..] == [];
    } else {
      Extend(Apply(s, run[0]), run[1..], l);
      assert (run + [l])[1..] == run[1..] + [l];
    }
  }

  lemma Go(run: seq<Label>, s: State, w: Actor, a: Action, s': State) returns (r: seq<Label>)
    requires Reaches(run, s) && w in s.workers && Enabled(s.workers[w], s.g, a)
    requires s'.g == NextSlots(w, s.workers[w], s.g, a) && s'.stops == s.stops
    requires s'.g.serial == s.g.serial
    requires s'.workers == s.workers[w := NextWorker(s.workers[w], s.g, a)]
    ensures Reaches(r, s')
  {
    Extend(Boot(None, s.g.serial), run, Work(w, a));
    r := run + [Work(w, a)];
  }

  lemma GoStop(run: seq<Label>, s: State, t: Actor, a: StopAction, s': State) returns (r: seq<Label>)
    requires Reaches(run, s) && t in s.stops && StopEnabled(s.stops[t], s.g, a)
    requires s' == State(StopSlots(s.stops[t], s.g, a), s.workers, s.stops[t := NextStop(s.stops[t], s.g, a)])
    requires s'.g.serial == s.g.serial
    ensures Reaches(r, s')
  {
    Extend(Boot(None, s.g.serial), run, Halt(t, a));
    r := run + [Halt(t, a)];
  }

  lemma GoNew(run: seq<Label>, s: State, l: Label) returns (r: seq<Label>)
    requires Reaches(run, s) && (l.Spawn? || l.StopEnter?) && Can(s, l)
    ensures Reaches(r, Apply(s, l))
  {
    Extend(Boot(None, s.g.serial), run, l);
    r := run + [l];
  }

  // The state with one worker, in phase `p`.
  function One(g: Slots, p: Phase): State {
    State(g, map[1 := Worker(p, false, false)], map[])
  }

  // Worker 1 has parked seat 7 and released the guard.
  function Seated(serial: bool): Slots {
    Boot(None, serial).g.(owner := map[7 := 1], freshSlot := Some(7))
  }

  lemma FirstHandOff(serial: bool) returns (r: seq<Label>)
    ensures Reaches(r, One(Seated(serial), HandOff(7)))
  {
    hide IsRun, End;
    var g := Boot(None, serial).g;
    var h := g.(guard := Some(1));
    r := Nothing(serial);
    r := GoNew(r, Boot(None, serial), Spawn(1));
    r := Go(r, One(g, Idle), 1, TakeGuard, One(h, GuardHeld));
    r := Go(r, One(h, GuardHeld), 1, PassCancelCheck, One(h, CancelChecked));
    r := Go(r, One(h, CancelChecked), 1, PassRetained, One(h, RetainedClear));
    r := Go(r, One(h, RetainedClear), 1, PassFresh, One(h, Admitted));
    r := FirstSeat(serial, r);
  }

  lemma FirstSeat(serial: bool, run: seq<Label>) returns (r: seq<Label>)
    requires Reaches(run, One(Boot(None, serial).g.(guard := Some(1)), Admitted))
    ensures Reaches(r, One(Seated(serial), HandOff(7)))
  {
    hide IsRun, End;
    var lock := if serial then Some(ByWorker(1)) else None;
    var h := Boot(None, serial).g.(guard := Some(1));
    var q := h.(routing := lock);
    r := Go(run, One(h, Admitted), 1, TakeRouting(true), One(q, Routed));
    var i := q.(owner := map[7 := 1], inHand := Some(7));
    r := Go(r, One(q, Routed), 1, Post(7), One(i, Posted(7)));
    r := FirstParked(serial, lock, r);
  }

  lemma FirstParked(serial: bool, lock: Option<Holder>, run: seq<Label>) returns (r: seq<Label>)
    requires lock == if serial then Some(ByWorker(1)) else None
    requires
      var g := Boot(None, serial).g.(guard := Some(1), routing := lock, owner := map[7 := 1], inHand := Some(7));
      Reaches(run, One(g, Posted(7)))
    ensures Reaches(r, One(Seated(serial), HandOff(7)))
  {
    hide IsRun, End;
    var i := Boot(None, serial).g.(guard := Some(1), routing := lock, owner := map[7 := 1], inHand := Some(7));
    var j := Seated(serial).(guard := Some(1), routing := lock);
    r := Go(run, One(i, Posted(7)), 1, Park, One(j, Parked(7)));
    r := Go(r, One(j, Parked(7)), 1, CheckAfterPark, One(j, Merged(7)));
    r := Go(r, One(j, Merged(7)), 1, CheckAfterMerge, One(j, Stored(7)));
    r := FirstReturned(serial, lock, r);
  }

  lemma FirstReturned(serial: bool, lock: Option<Holder>, run: seq<Label>) returns (r: seq<Label>)
    requires lock == if serial then Some(ByWorker(1)) else None
    requires Reaches(run, One(Seated(serial).(guard := Some(1), routing := lock), Stored(7)))
    ensures Reaches(r, One(Seated(serial), HandOff(7)))
  {
    hide IsRun, End;
    var j := Seated(serial).(guard := Some(1), routing := lock);
    var n := Seated(serial).(routing := lock);
    r := Go(run, One(j, Stored(7)), 1, ReturnSeat, One(n, Returning(7)));
    r := Go(r, One(n, Returning(7)), 1, LeaveRouting, One(Seated(serial), HandOff(7)));
  }

  lemma Nothing(serial: bool) returns (r: seq<Label>)
    ensures Reaches(r, Boot(None, serial))
  {
    r := [];
  }

  /** The ordinary run ends in acceptance, so the claims above are not about an idle protocol. */
  lemma AcceptanceIsReachable() returns (r: seq<Label>)
    ensures IsRun(Boot(None, true), r) && End(Boot(None, true), r).g.accepted == {7}
  {
    hide IsRun, End;
    r := FirstHandOff(true);
    var g := Seated(true);
    var a := State(g, map[1 := Worker(Awaiting(7, true), false, false)], map[]);
    r := Go(r, One(g, HandOff(7)), 1, Deliver(true), a);
    var b := a.(workers := map[1 := Worker(Awaiting(7, true), false, true)]);
    r := Go(r, a, 1, Acknowledge, b);
    var c := a.(workers := map[1 := Worker(Decided(7, true), false, true)]);
    r := Go(r, b, 1, Decide, c);
    r := DecidedIsAccepted(r);
  }

  lemma DecidedIsAccepted(run: seq<Label>) returns (r: seq<Label>)
    requires Reaches(run, State(Seated(true), map[1 := Worker(Decided(7, true), false, true)], map[]))
    ensures IsRun(Boot(None, true), r) && End(Boot(None, true), r).g.accepted == {7}
  {
    hide IsRun, End;
    var g := Seated(true);
    var c := State(g, map[1 := Worker(Decided(7, true), false, true)], map[]);
    var h := g.(routing := Some(ByWorker(1)));
    var d := State(h, map[1 := Worker(Finish(7, true, false, WaitLock), false, true)], map[]);
    r := Go(run, c, 1, TakeRouting(true), d);
    var e := State(h.(freshSlot := None, accepted := {7}), map[1 := Worker(Leaving, false, true)], map[]);
    r := Go(r, d, 1, LockFresh, e);
  }

  // Worker 1 in phase `p`, worker 2 in phase `q`, stop 9 at `t`.
  function Three(g: Slots, p: Phase, q: Phase, t: Stop): State {
    State(g, map[1 := Worker(p, false, false), 2 := Worker(q, false, false)], map[9 := t])
  }

  // The run below is one of the service alone, without its callers' lock.
  const SEATED: Slots := Seated(false)

  /** The agreement rests on the callers' lock and not on the service itself: without it a stop can
      overlap a hand-off. Worker 2 has passed the retained check, worker 1's delete fails while stop
      9's succeeds, and worker 2 then finds `fresh` empty; no file operation fails. */
  lemma AgreementNeedsRoutingLock() returns (r: seq<Label>)
    ensures IsRun(Boot(None, false), r)
    ensures End(Boot(None, false), r).g.freshSlot == Some(8) && End(Boot(None, false), r).g.retained == Some(7)
  {
    hide IsRun, End;
    r := FirstHandOff(false);
    var f := Finish(7, false, false, WaitLock);
    r := Go(r, One(SEATED, HandOff(7)), 1, Deliver(true), One(SEATED, Awaiting(7, true)));
    r := Go(r, One(SEATED, Awaiting(7, true)), 1, Decide, One(SEATED, Decided(7, false)));
    r := Go(r, One(SEATED, Decided(7, false)), 1, TakeRouting(true), One(SEATED, f));
    r := GoNew(r, One(SEATED, f), StopEnter(9));
    r := GoNew(r, One(SEATED, f).(stops := map[9 := Entered]), Spawn(2));
    r := SecondPassesRecord(r);
  }

  lemma SecondPassesRecord(run: seq<Label>) returns (r: seq<Label>)
    requires Reaches(run, Three(SEATED, Finish(7, false, false, WaitLock), Idle, Entered))
    ensures IsRun(Boot(None, false), r)
    ensures End(Boot(None, false), r).g.freshSlot == Some(8) && End(Boot(None, false), r).g.retained == Some(7)
  {
    hide IsRun, End;
    var f := Finish(7, false, false, WaitLock);
    var h := SEATED.(guard := Some(2));
    r := GoStop(run, Three(SEATED, f, Idle, Entered), 9, CheckRecord(7), Three(SEATED, f, Idle, Checked(7)));
    r := Go(r, Three(SEATED, f, Idle, Checked(7)), 2, TakeGuard, Three(h, f, GuardHeld, Checked(7)));
    r := Go(r, Three(h, f, GuardHeld, Checked(7)), 2, PassCancelCheck, Three(h, f, CancelChecked, Checked(7)));
    r := Go(r, Three(h, f, CancelChecked, Checked(7)), 2, PassRetained, Three(h, f, RetainedClear, Checked(7)));
    r := OverlappingDeletes(r);
  }

  // The seat's slots once stop 9 has confirmed the delete worker 1 is still waiting for.
  const CONTESTED: Slots := SEATED.(guard := Some(2), freshLock := Some(1), torn := {7}, deleted := {7})

  lemma OverlappingDeletes(run: seq<Label>) returns (r: seq<Label>)
    requires Reaches(run, Three(SEATED.(guard := Some(2)), Finish(7, false, false, WaitLock), RetainedClear, Checked(7)))
    ensures IsRun(Boot(None, false), r)
    ensures End(Boot(None, false), r).g.freshSlot == Some(8) && End(Boot(None, false), r).g.retained == Some(7)
  {
    hide IsRun, End;
    var h := SEATED.(guard := Some(2));
    var i := CONTESTED.(deleted := {});
    var d := Finish(7, false, false, Deleting);
    r := Go(run, Three(h, d.(stage := WaitLock), RetainedClear, Checked(7)), 1, LockFresh, Three(i, d, RetainedClear, Checked(7)));
    r := GoStop(r, Three(i, d, RetainedClear, Checked(7)), 9, RemoteDelete(true), Three(CONTESTED, d, RetainedClear, Confirmed(7)));
    r := GoStop(r, Three(CONTESTED, d, RetainedClear, Confirmed(7)), 9, DropRecord(true), Three(CONTESTED, d, RetainedClear, Unrecorded(7)));
    r := Go(r, Three(CONTESTED, d, RetainedClear, Unrecorded(7)), 1, DeleteSeat(false), Three(CONTESTED, d.(stage := Failed), RetainedClear, Unrecorded(7)));
    r := RecordThenReuse(r);
  }

  lemma RecordThenReuse(run: seq<Label>) returns (r: seq<Label>)
    requires Reaches(run, Three(CONTESTED, Finish(7, false, false, Failed), RetainedClear, Unrecorded(7)))
    ensures IsRun(Boot(None, false), r)
    ensures End(Boot(None, false), r).g.freshSlot == Some(8) && End(Boot(None, false), r).g.retained == Some(7)
  {
    hide IsRun, End;
    var f := Finish(7, false, false, Failed);
    var j := CONTESTED.(retained := Some(7));
    r := Go(run, Three(CONTESTED, f, RetainedClear, Unrecorded(7)), 1, Retain, Three(j, f.(stage := Recorded), RetainedClear, Unrecorded(7)));
    var k := j.(freshLock := None);
    r := Go(r, Three(j, f.(stage := Recorded), RetainedClear, Unrecorded(7)), 1, ReleaseFresh, Three(k, Leaving, RetainedClear, Unrecorded(7)));
    r := GoStop(r, Three(k, Leaving, RetainedClear, Unrecorded(7)), 9, DropFresh, Three(STALE, Leaving, RetainedClear, Quit));
    r := Reuse(r);
  }

  // The slots once seat 7's stop has emptied `fresh` under the record left behind.
  const STALE: Slots := CONTESTED.(retained := Some(7), freshLock := None, freshSlot := None)

  lemma Reuse(run: seq<Label>) returns (r: seq<Label>)
    requires Reaches(run, Three(STALE, Leaving, RetainedClear, Quit))
    ensures IsRun(Boot(None, false), r)
    ensures End(Boot(None, false), r).g.freshSlot == Some(8) && End(Boot(None, false), r).g.retained == Some(7)
  {
    hide IsRun, End;
    r := Go(run, Three(STALE, Leaving, RetainedClear, Quit), 2, PassFresh, Three(STALE, Leaving, Admitted, Quit));
    r := Go(r, Three(STALE, Leaving, Admitted, Quit), 2, TakeRouting(true), Three(STALE, Leaving, Routed, Quit));
    var n := STALE.(owner := STALE.owner[8 := 2], inHand := Some(8));
    r := Go(r, Three(STALE, Leaving, Routed, Quit), 2, Post(8), Three(n, Leaving, Posted(8), Quit));
    r := Go(r, Three(n, Leaving, Posted(8), Quit), 2, Park, Three(n.(freshSlot := Some(8), inHand := None), Leaving, Parked(8), Quit));
  }
}
