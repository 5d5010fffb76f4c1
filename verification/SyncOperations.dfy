/** Game-account syncs: a `sync` call registers an operation, asks the store without the lock, and writes
    the outcome under it; a status poll likewise looks, lists accounts, and writes what it observed.
    Each action below is one stretch under the lock, so a run is an interleaving of calls, polls,
    cancellations and invalidations. Times are in milliseconds. */
module SyncOperations {
  import opened Wrappers

  type Id = nat
  type Actor = nat
  type Scope = nat
  type Provider = nat

  const MAX_OPERATIONS: nat := 8
  const KEPT_FOR: nat := 180_000
  const TIMEOUT: nat := 120_000
  const SUCCESS := "SYNC_SUCCESS"

  /** A provider's account as listed; `date` is its sync date when that parses. */
  datatype Account = Account(connected: bool, expired: bool, state: Option<string>, date: Option<int>)

  datatype Phase = Starting | Waiting | Refreshing | Complete | Failed | TimedOut | Cancelled
  {
    predicate Active() {
      Starting? || Waiting? || Refreshing?
    }

    function Rank(): nat {
      match this
      case Starting => 0
      case Waiting => 1
      case Refreshing => 2
      case Complete => 3
      case Failed => 3
      case TimedOut => 3
      case Cancelled => 4
    }
  }

  datatype Operation = Operation(
    provider: Provider,
    scope: Scope,
    baseline: Option<Account>,
    phase: Phase,
    started: nat,
    nextPoll: nat,
    invalidated: bool)

  datatype Poll = Poll(id: Id, baseline: Option<Account>)

  /** Beside the service's map: `inFlight` are the operations whose `sync` call has not returned, `polls`
      the polls between their two stretches, `used` every id ever drawn, `proof` the observation that
      moved an operation to refreshing, `acked` those whose library refresh was acknowledged,
      `revived` those whose `sync` call wrote over a cancellation, `invalidations` the successful
      invalidations. */
  datatype State = State(
    clock: nat,
    ops: map<Id, Operation>,
    inFlight: set<Id>,
    polls: map<Actor, Poll>,
    used: set<Id>,
    proof: map<Id, Account>,
    acked: set<Id>,
    revived: set<Id>,
    invalidations: multiset<Id>)

  const INITIAL := State(0, map[], {}, map[], {}, map[], {}, {}, multiset{})

  datatype Label =
    | Tick(ms: nat)
    | CancelPending
    | Begin(id: Id, provider: Provider, scope: Scope)
    | Return(id: Id, outcome: Option<Account>)
    | Status(a: Actor, id: Id, scope: Scope, cancel: bool, refreshed: bool)
    | Observe(a: Actor, current: Option<Account>)
    | Unauthorized(a: Actor)
    | PollFailed(a: Actor)
    | Invalidate(id: Id, succeeds: bool)

  predicate Can(s: State, l: Label) {
    match l
    case Begin(id, _, _) => id !in s.used
    case Return(id, _) => id in s.inFlight
    case Status(a, _, _, _, _) => a !in s.polls
    case Observe(a, _) => a in s.polls
    case Unauthorized(a) => a in s.polls
    case PollFailed(a) => a in s.polls
    case _ => true
  }

  // ---- What a poll concludes ----

  // The sync date is there and later than the baseline's, if that has one.
  predicate Newer(baseline: Option<Account>, current: Account) {
    && current.date.Some?
    && (baseline.Some? && baseline.value.date.Some? ==> current.date.value > baseline.value.date.value)
  }

  function StateOf(account: Option<Account>): Option<string> {
    if account.Some? then account.value.state else None
  }

  function Observed(baseline: Option<Account>, current: Option<Account>): Phase {
    if current.None? || !current.value.connected || current.value.expired then Failed
    else
      var text := if current.value.state.Some? then current.value.state.value else "";
      if text == SUCCESS && Newer(baseline, current.value) then Refreshing
      else if text != "" && text != SUCCESS
              && (Newer(baseline, current.value) || current.value.state != StateOf(baseline)) then Failed
      else Waiting
  }

  // A fresh remote success: connected, not expired, reported as success, dated after the baseline.
  predicate Proves(baseline: Option<Account>, seen: Account) {
    seen.connected && !seen.expired && seen.state == Some(SUCCESS) && Newer(baseline, seen)
  }

  // ---- Steps ----

  // The operations still of interest to a new call.
  function Current(s: State, scope: Scope): map<Id, Operation> {
    map id | id in s.ops && s.ops[id].scope == scope && s.clock - s.ops[id].started < KEPT_FOR :: s.ops[id]
  }

  predicate Busy(ops: map<Id, Operation>, provider: Provider) {
    exists id :: id in ops && ops[id].provider == provider && ops[id].phase.Active()
  }

  function AfterBegin(s: State, id: Id, provider: Provider, scope: Scope): State {
    var kept := Current(s, scope);
    if Busy(kept, provider) || |kept| >= MAX_OPERATIONS then s.(ops := kept)
    else
      s.(ops := kept[id := Operation(provider, scope, None, Starting, s.clock, s.clock, false)],
         inFlight := s.inFlight + {id}, used := s.used + {id})
  }

  function AfterReturn(s: State, id: Id, outcome: Option<Account>): State {
    var t := s.(inFlight := s.inFlight - {id});
    if id !in s.ops then t
    else if outcome.None? then t.(ops := s.ops[id := s.ops[id].(phase := Failed)])
    else
      t.(ops := s.ops[id := s.ops[id].(baseline := outcome, phase := Waiting, nextPoll := s.clock + 2_000)],
         revived := if s.ops[id].phase.Cancelled? then s.revived + {id} else s.revived)
  }

  // The phase once a status request's own flags and the time-out are applied.
  function Asked(op: Operation, now: nat, cancel: bool, refreshed: bool): Phase {
    var asked := if cancel then Cancelled else op.phase;
    var told := if refreshed && asked.Refreshing? then Complete else asked;
    if told.Waiting? && now - op.started >= TIMEOUT then TimedOut else told
  }

  function AfterStatus(s: State, a: Actor, id: Id, scope: Scope, cancel: bool, refreshed: bool): State {
    if id !in s.ops || s.ops[id].scope != scope then s
    else
      var op := s.ops[id].(phase := Asked(s.ops[id], s.clock, cancel, refreshed));
      var t := s.(acked := if refreshed && s.ops[id].phase.Refreshing? then s.acked + {id} else s.acked);
      if !op.phase.Waiting? || s.clock < op.nextPoll then t.(ops := s.ops[id := op])
      else
        var gap := if s.clock - op.started < 20_000 then 2_000 else 5_000;
        t.(ops := s.ops[id := op.(nextPoll := s.clock + gap)], polls := s.polls[a := Poll(id, op.baseline)])
  }

  function AfterObserve(s: State, a: Actor, current: Option<Account>): State
    requires a in s.polls
  {
    var poll := s.polls[a];
    var t := s.(polls := s.polls - {a});
    if poll.id !in s.ops || !s.ops[poll.id].phase.Waiting? then t
    else
      var phase := Observed(poll.baseline, current);
      t.(ops := s.ops[poll.id := s.ops[poll.id].(phase := phase)],
         proof := if phase.Refreshing? then s.proof[poll.id := current.value] else s.proof)
  }

  function AfterUnauthorized(s: State, a: Actor): State
    requires a in s.polls
  {
    var id := s.polls[a].id;
    var t := s.(polls := s.polls - {a});
    if id in s.ops then t.(ops := s.ops[id := s.ops[id].(nextPoll := s.clock)]) else t
  }

  function AfterInvalidate(s: State, id: Id, succeeds: bool): State {
    if id !in s.ops || s.ops[id].invalidated || !succeeds then s
    else
      s.(ops := s.ops[id := s.ops[id].(invalidated := true)],
         invalidations := s.invalidations + multiset{id})
  }

  function Apply(s: State, l: Label): State
    requires Can(s, l)
  {
    match l
    case Tick(ms) => s.(clock := s.clock + ms)
    case CancelPending => s.(ops := map[])
    case Begin(id, provider, scope) => AfterBegin(s, id, provider, scope)
    case Return(id, outcome) => AfterReturn(s, id, outcome)
    case Status(a, id, scope, cancel, refreshed) => AfterStatus(s, a, id, scope, cancel, refreshed)
    case Observe(a, current) => AfterObserve(s, a, current)
    case Unauthorized(a) => AfterUnauthorized(s, a)
    case PollFailed(a) => s.(polls := s.polls - {a})
    case Invalidate(id, succeeds) => AfterInvalidate(s, id, succeeds)
  }

  predicate IsRun(s: State, run: seq<Label>)
    decreases |run|
  {
    run == [] || (Can(s, run[0]) && IsRun(Apply(s, run[0]), run[1..]))
  }

  function End(s: State, run: seq<Label>): State
    requires IsRun(s, run)
    decreases |run|
  {
    if run == [] then s else End(Apply(s, run[0]), run[1..])
  }

  // ---- The invariant ----

  ghost predicate InvPhases(s: State) {
    && s.inFlight <= s.used && s.ops.Keys <= s.used
    && (forall id :: id in s.ops && id in s.inFlight ==>
          (s.ops[id].phase.Starting? || s.ops[id].phase.Cancelled?))
    && (forall id :: id in s.ops && s.ops[id].phase.Starting? ==> id in s.inFlight)
  }

  // A poll in progress carries the baseline its operation still has.
  ghost predicate InvPolls(s: State) {
    forall a :: a in s.polls ==>
      var poll := s.polls[a];
      && poll.id in s.used && poll.id !in s.inFlight
      && (poll.id in s.ops ==> s.ops[poll.id].baseline == poll.baseline)
  }

  ghost predicate Evident(s: State, id: Id)
    requires id in s.ops
  {
    && (s.ops[id].phase.Refreshing? || s.ops[id].phase.Complete? ==>
          id in s.proof && Proves(s.ops[id].baseline, s.proof[id]))
    && (s.ops[id].phase.Complete? ==> id in s.acked)
    && (s.ops[id].phase.TimedOut? ==> s.clock - s.ops[id].started >= TIMEOUT)
  }

  ghost predicate InvEvidence(s: State) {
    forall id :: id in s.ops ==> Evident(s, id)
  }

  ghost predicate InvInvalidations(s: State) {
    && (forall id :: s.invalidations[id] <= 1)
    && (forall id :: id !in s.used ==> s.invalidations[id] == 0)
    && (forall id :: id in s.ops ==> (s.ops[id].invalidated <==> s.invalidations[id] == 1))
  }

  ghost predicate InvSize(s: State) {
    && |s.ops| <= MAX_OPERATIONS
    && (forall i, j :: i in s.ops && j in s.ops ==> s.ops[i].scope == s.ops[j].scope)
  }

  ghost predicate InvUnique(s: State) {
    forall i, j :: i in s.ops && j in s.ops && i != j
                   && s.ops[i].phase.Active() && s.ops[j].phase.Active()
                   && s.ops[i].provider == s.ops[j].provider
                   ==> i in s.revived || j in s.revived
  }

  ghost predicate Inv(s: State) {
    InvPhases(s) && InvPolls(s) && InvEvidence(s) && InvInvalidations(s) && InvSize(s) && InvUnique(s)
  }

  // ---- The shape of a step ----

  // The operation an action other than Begin and CancelPending may change.
  function Target(s: State, l: Label): Id
    requires Can(s, l)
  {
    match l
    case Return(id, _) => id
    case Status(_, id, _, _, _) => id
    case Observe(a, _) => s.polls[a].id
    case Unauthorized(a) => s.polls[a].id
    case Invalidate(id, _) => id
    case _ => 0
  }

  predicate Local(l: Label) {
    !l.Begin? && !l.CancelPending?
  }

  // No operation comes or goes, and none but `id` changes; `id` keeps whose it is.
  ghost predicate Touches(before: map<Id, Operation>, after: map<Id, Operation>, id: Id) {
    && after.Keys == before.Keys && |after| == |before|
    && (forall j :: j in before && j != id ==> after[j] == before[j])
    && (id in before ==>
          && after[id].scope == before[id].scope && after[id].provider == before[id].provider
          && after[id].started == before[id].started)
  }

  lemma UpdateTouches(ops: map<Id, Operation>, id: Id, op: Operation)
    requires id in ops
    requires op.scope == ops[id].scope && op.provider == ops[id].provider && op.started == ops[id].started
    ensures Touches(ops, ops[id := op], id)
  {
    assert ops[id := op].Keys == ops.Keys;
    assert |ops[id := op].Keys| == |ops[id := op]| && |ops.Keys| == |ops|;
  }

  lemma StepTouches(s: State, l: Label)
    requires Can(s, l) && Local(l)
    ensures Touches(s.ops, Apply(s, l).ops, Target(s, l))
  {
    var id := Target(s, l);
    if id in s.ops {
      assert id in Apply(s, l).ops;
      UpdateTouches(s.ops, id, Apply(s, l).ops[id]);
    }
    hide Touches;
  }

  lemma CurrentIsSmaller(s: State, scope: Scope)
    ensures |Current(s, scope)| <= |s.ops|
  {
    SubsetIsSmaller(Current(s, scope).Keys, s.ops.Keys);
  }

  // Only the return of its `sync` call makes an operation active that was not, and that is recorded.
  lemma StepActivates(s: State, l: Label)
    requires InvPhases(s) && Can(s, l) && Local(l)
    ensures s.revived <= Apply(s, l).revived
    ensures
      var id := Target(s, l);
      id in s.ops && id in Apply(s, l).ops && Apply(s, l).ops[id].phase.Active() ==>
        s.ops[id].phase.Active() || id in Apply(s, l).revived
  {
  }

  // ---- Every step keeps the invariant ----

  lemma StepKeepsPhases(s: State, l: Label)
    requires InvPhases(s) && InvPolls(s) && Can(s, l)
    ensures InvPhases(Apply(s, l))
  {
  }

  lemma StepKeepsPolls(s: State, l: Label)
    requires InvPhases(s) && InvPolls(s) && Can(s, l)
    ensures InvPolls(Apply(s, l))
  {
  }

  lemma RefreshingIsProved(baseline: Option<Account>, current: Option<Account>)
    requires Observed(baseline, current).Refreshing?
    ensures current.Some? && Proves(baseline, current.value)
  {
  }

  lemma ObserveKeepsEvident(s: State, a: Actor, current: Option<Account>, id: Id)
    requires InvPolls(s) && a in s.polls && id in s.ops && Evident(s, id)
    ensures Evident(AfterObserve(s, a, current), id)
  {
    hide Proves;
    var poll := s.polls[a];
    if Observed(poll.baseline, current).Refreshing? {
      RefreshingIsProved(poll.baseline, current);
    }
  }

  lemma StatusKeepsEvident(s: State, l: Label, id: Id)
    requires InvPhases(s) && l.Status? && id in s.ops && Evident(s, id)
    ensures Evident(AfterStatus(s, l.a, l.id, l.scope, l.cancel, l.refreshed), id)
  {
    hide Proves;
  }

  lemma BeginKeepsEvident(s: State, begun: Id, provider: Provider, scope: Scope, id: Id)
    requires id in AfterBegin(s, begun, provider, scope).ops && (id in s.ops ==> Evident(s, id))
    requires begun !in s.ops
    ensures Evident(AfterBegin(s, begun, provider, scope), id)
  {
    hide Busy, Proves;
  }

  lemma ReturnKeepsEvident(s: State, returned: Id, outcome: Option<Account>, id: Id)
    requires id in s.ops && Evident(s, id)
    ensures Evident(AfterReturn(s, returned, outcome), id)
  {
    hide Proves;
  }

  lemma UnauthorizedKeepsEvident(s: State, a: Actor, id: Id)
    requires a in s.polls && id in s.ops && Evident(s, id)
    ensures Evident(AfterUnauthorized(s, a), id)
  {
    hide Proves;
  }

  lemma InvalidateKeepsEvident(s: State, invalidated: Id, succeeds: bool, id: Id)
    requires id in s.ops && Evident(s, id)
    ensures Evident(AfterInvalidate(s, invalidated, succeeds), id)
  {
    hide Proves;
  }

  lemma OperationWasThere(s: State, l: Label, id: Id)
    requires Can(s, l) && !l.Begin? && id in Apply(s, l).ops
    ensures id in s.ops
  {
  }

  lemma StepKeepsEvident(s: State, l: Label, id: Id)
    requires InvPhases(s) && InvPolls(s) && Can(s, l)
    requires id in Apply(s, l).ops && (id in s.ops ==> Evident(s, id))
    ensures Evident(Apply(s, l), id)
  {
    if !l.Begin? {
      OperationWasThere(s, l, id);
    }
    hide Proves, AfterBegin, AfterReturn, AfterStatus, AfterObserve, AfterUnauthorized, AfterInvalidate;
    match l {
      case Begin(begun, provider, scope) => BeginKeepsEvident(s, begun, provider, scope, id);
      case Return(returned, outcome) => ReturnKeepsEvident(s, returned, outcome, id);
      case Status(_, _, _, _, _) => StatusKeepsEvident(s, l, id);
      case Observe(a, current) => ObserveKeepsEvident(s, a, current, id);
      case Unauthorized(a) => UnauthorizedKeepsEvident(s, a, id);
      case Invalidate(invalidated, succeeds) => InvalidateKeepsEvident(s, invalidated, succeeds, id);
      case _ =>
    }
  }

  lemma StepKeepsEvidence(s: State, l: Label)
    requires InvPhases(s) && InvPolls(s) && InvEvidence(s) && Can(s, l)
    ensures InvEvidence(Apply(s, l))
  {
    var t := Apply(s, l);
    forall id | id in t.ops
      ensures Evident(t, id)
    {
      StepKeepsEvident(s, l, id);
    }
    hide Evident;
  }

  lemma SameInvalidations(s: State, t: State)
    requires InvInvalidations(s) && s.used <= t.used && t.invalidations == s.invalidations
    requires forall id :: id in t.ops ==>
      if id in s.ops then t.ops[id].invalidated == s.ops[id].invalidated
      else id !in s.used && !t.ops[id].invalidated
    ensures InvInvalidations(t)
  {
  }

  lemma InvalidateKeepsInvalidations(s: State, id: Id, succeeds: bool)
    requires InvPhases(s) && InvInvalidations(s)
    ensures InvInvalidations(AfterInvalidate(s, id, succeeds))
  {
  }

  lemma StepKeepsInvalidations(s: State, l: Label)
    requires InvPhases(s) && InvInvalidations(s) && Can(s, l)
    ensures InvInvalidations(Apply(s, l))
  {
    hide InvInvalidations, Observed, Asked, Busy;
    if l.Invalidate? {
      InvalidateKeepsInvalidations(s, l.id, l.succeeds);
    } else if l.Status? {
      StatusKeepsInvalidations(s, l);
    } else {
      SameInvalidations(s, Apply(s, l));
    }
  }

  lemma StatusKeepsInvalidations(s: State, l: Label)
    requires InvPhases(s) && InvInvalidations(s) && l.Status? && Can(s, l)
    ensures InvInvalidations(AfterStatus(s, l.a, l.id, l.scope, l.cancel, l.refreshed))
  {
    hide InvInvalidations, Asked;
    SameInvalidations(s, AfterStatus(s, l.a, l.id, l.scope, l.cancel, l.refreshed));
  }

  lemma AtMostOneMore(ops: map<Id, Operation>, id: Id, op: Operation)
    ensures |ops[id := op]| <= |ops| + 1
  {
    assert ops[id := op].Keys == ops.Keys + {id};
    assert |ops[id := op].Keys| <= |ops.Keys| + 1;
  }

  lemma BeginKeepsSize(s: State, id: Id, provider: Provider, scope: Scope)
    requires InvPhases(s) && InvSize(s) && id !in s.used
    ensures InvSize(AfterBegin(s, id, provider, scope))
  {
    hide Busy, InvPhases;
    CurrentIsSmaller(s, scope);
    AtMostOneMore(Current(s, scope), id, Operation(provider, scope, None, Starting, s.clock, s.clock, false));
  }

  lemma StepKeepsSize(s: State, l: Label)
    requires InvPhases(s) && InvSize(s) && Can(s, l)
    ensures InvSize(Apply(s, l))
  {
    if l.Begin? {
      BeginKeepsSize(s, l.id, l.provider, l.scope);
    } else if !l.CancelPending? {
      StepTouches(s, l);
    }
    hide AfterBegin, AfterReturn, AfterStatus, AfterObserve, AfterUnauthorized, AfterInvalidate;
  }

  lemma BeginKeepsUnique(s: State, id: Id, provider: Provider, scope: Scope)
    requires InvPhases(s) && InvUnique(s) && id !in s.used
    ensures InvUnique(AfterBegin(s, id, provider, scope))
  {
    hide InvPhases;
  }

  lemma StepKeepsUnique(s: State, l: Label)
    requires InvPhases(s) && InvUnique(s) && Can(s, l)
    ensures InvUnique(Apply(s, l))
  {
    if l.Begin? {
      BeginKeepsUnique(s, l.id, l.provider, l.scope);
    } else if !l.CancelPending? {
      StepTouches(s, l);
      StepActivates(s, l);
    }
    hide AfterBegin, AfterReturn, AfterStatus, AfterObserve, AfterUnauthorized, AfterInvalidate;
  }

  lemma StepKeepsInv(s: State, l: Label)
    requires Inv(s) && Can(s, l)
    ensures Inv(Apply(s, l))
  {
    hide InvPhases, InvPolls, InvEvidence, InvInvalidations, InvSize, InvUnique, Apply, Can;
    StepKeepsPhases(s, l);
    StepKeepsPolls(s, l);
    StepKeepsEvidence(s, l);
    StepKeepsInvalidations(s, l);
    StepKeepsSize(s, l);
    StepKeepsUnique(s, l);
  }

  lemma {:induction false} RunKeepsInv(s: State, run: seq<Label>)
    requires Inv(s) && IsRun(s, run)
    ensures Inv(End(s, run))
    decreases |run|
  {
    hide Inv, Apply, Can;
    if run != [] {
      StepKeepsInv(s, run[0]);
      RunKeepsInv(Apply(s, run[0]), run[1..]);
    }
  }

  lemma InitialInv()
    ensures Inv(INITIAL)
  {
  }

  // ---- Phases over a run ----

  predicate Advances(p: Phase, q: Phase) {
    p == q || p.Rank() < q.Rank()
  }

  // What a step does to an operation that was there before it and still is.
  ghost predicate Moves(s: State, t: State, id: Id) {
    id in s.used && id in t.used
    && (id in t.ops ==> id in s.ops)
    && (id !in s.inFlight ==> id !in t.inFlight)
    && (id in s.ops && id in t.ops && id !in s.inFlight ==> Advances(s.ops[id].phase, t.ops[id].phase))
  }

  lemma ObservedMovesOn(baseline: Option<Account>, current: Option<Account>)
    ensures Advances(Waiting, Observed(baseline, current))
  {
  }

  lemma AskedMovesOn(op: Operation, now: nat, cancel: bool, refreshed: bool)
    requires !op.phase.Starting?
    ensures Advances(op.phase, Asked(op, now, cancel, refreshed))
  {
  }

  // An operation that stays where it is, of a call that did not begin just now.
  lemma SamePhaseMoves(s: State, t: State, id: Id)
    requires id in s.used && s.used <= t.used && t.inFlight <= s.inFlight
    requires id in t.ops ==> id in s.ops && (id in s.inFlight || t.ops[id].phase == s.ops[id].phase)
    ensures Moves(s, t, id)
  {
    if id in s.ops {
      StaysPut(s.ops[id].phase);
    }
  }

  lemma StatusMoves(s: State, l: Label, id: Id)
    requires InvPhases(s) && Can(s, l) && l.Status? && id in s.used
    ensures Moves(s, AfterStatus(s, l.a, l.id, l.scope, l.cancel, l.refreshed), id)
  {
    hide Asked, Advances;
    if id in s.ops {
      StaysPut(s.ops[id].phase);
      if id !in s.inFlight {
        AskedMovesOn(s.ops[id], s.clock, l.cancel, l.refreshed);
      }
    }
  }

  lemma ObserveMoves(s: State, a: Actor, current: Option<Account>, id: Id)
    requires a in s.polls && id in s.used
    ensures Moves(s, AfterObserve(s, a, current), id)
  {
    hide Observed, Advances;
    ObservedMovesOn(s.polls[a].baseline, current);
    if id in s.ops {
      StaysPut(s.ops[id].phase);
    }
  }

  lemma BeginMoves(s: State, begun: Id, provider: Provider, scope: Scope, id: Id)
    requires begun !in s.used && id in s.used
    ensures Moves(s, AfterBegin(s, begun, provider, scope), id)
  {
    hide Busy, Advances;
    if id in s.ops {
      StaysPut(s.ops[id].phase);
    }
  }

  lemma StepMoves(s: State, l: Label, id: Id)
    requires InvPhases(s) && Can(s, l) && id in s.used
    ensures Moves(s, Apply(s, l), id)
  {
    hide Moves, AfterStatus, AfterObserve, AfterBegin, InvPhases;
    match l {
      case Begin(begun, provider, scope) => BeginMoves(s, begun, provider, scope, id);
      case Status(_, _, _, _, _) => StatusMoves(s, l, id);
      case Observe(a, current) => ObserveMoves(s, a, current, id);
      case _ => SamePhaseMoves(s, Apply(s, l), id);
    }
  }

  lemma StaysPut(p: Phase)
    ensures Advances(p, p)
  {
  }

  lemma {:induction false} RunMoves(s: State, run: seq<Label>, id: Id)
    requires Inv(s) && IsRun(s, run) && id in s.used
    ensures Moves(s, End(s, run), id)
    decreases |run|
  {
    hide Inv, Apply, Can;
    if run != [] {
      assert InvPhases(s) by {
        InvHasPhases(s);
      }
      StepMoves(s, run[0], id);
      StepKeepsInv(s, run[0]);
      RunMoves(Apply(s, run[0]), run[1..], id);
    }
  }

  lemma InvHasPhases(s: State)
    requires Inv(s)
    ensures InvPhases(s)
  {
  }

  // ---- Main results ----

  // ---- What each step does ----

  /** A poll's conclusion: refreshing exactly on a success of a connected account dated after the
      baseline, failed exactly if the account is gone, disconnected or expired, or reports another state
      that is new in its date or itself. */
  lemma ObservedIff(baseline: Option<Account>, current: Option<Account>)
    ensures Observed(baseline, current) == Refreshing <==>
              && current.Some? && current.value.connected && !current.value.expired
              && current.value.state == Some("SYNC_SUCCESS") && current.value.date.Some?
              && (baseline.Some? && baseline.value.date.Some? ==> baseline.value.date.value < current.value.date.value)
    ensures Observed(baseline, current) == Failed <==>
              || current.None? || !current.value.connected || current.value.expired
              || (current.value.state.Some? && current.value.state.value !in {"", "SYNC_SUCCESS"}
                  && ((current.value.date.Some? && (baseline.Some? && baseline.value.date.Some? ==>
                                                      baseline.value.date.value < current.value.date.value))
                      || baseline.None? || baseline.value.state != current.value.state))
    ensures Observed(baseline, current) in {Refreshing, Failed, Waiting}
  {
  }

  /** A `sync` call starts an operation exactly if the account has none of this provider under way and
      fewer than 8 that are younger than three minutes. */
  lemma SyncStartsIff(s: State, id: Id, provider: Provider, scope: Scope)
    requires id !in s.used && s.ops.Keys <= s.used
    ensures
      var young := set j | j in s.ops && s.ops[j].scope == scope && s.clock - s.ops[j].started < 180_000;
      id in AfterBegin(s, id, provider, scope).ops <==>
        |young| < 8 && forall j | j in young :: s.ops[j].provider == provider ==> s.ops[j].phase !in {Starting, Waiting, Refreshing}
    ensures id in AfterBegin(s, id, provider, scope).ops ==>
              && AfterBegin(s, id, provider, scope).ops[id] == Operation(provider, scope, None, Starting, s.clock, s.clock, false)
              && id in AfterBegin(s, id, provider, scope).inFlight
  {
    var young := set j | j in s.ops && s.ops[j].scope == scope && s.clock - s.ops[j].started < 180_000;
    var kept := Current(s, scope);
    assert kept.Keys == young;
    assert |kept.Keys| == |kept|;
    if Busy(kept, provider) {
      var j :| j in kept && kept[j].provider == provider && kept[j].phase.Active();
      assert j in young;
    }
  }

  /** An operation goes in a step exactly if everything is cancelled, or a `sync` call comes from another
      account or three minutes after it started. */
  lemma OperationGoesIff(s: State, l: Label, id: Id)
    requires Can(s, l) && id in s.ops && s.ops.Keys <= s.used
    ensures id !in Apply(s, l).ops <==>
              l.CancelPending? || (l.Begin? && (s.ops[id].scope != l.scope || s.clock - s.ops[id].started >= 180_000))
  {
    if l.Begin? {
      assert id in Current(s, l.scope) <==> s.ops[id].scope == l.scope && s.clock - s.ops[id].started < 180_000;
    }
  }

  /** A status request of the operation's own account: a cancellation wins; an acknowledgement completes
      exactly a refreshing operation; a waiting one times out after two minutes; and otherwise, if its
      next poll is due, it is polled and the next one set two seconds ahead, or five from twenty seconds on. */
  lemma StatusMeans(s: State, a: Actor, id: Id, cancel: bool, refreshed: bool)
    requires a !in s.polls && id in s.ops
    ensures
      var was, t := s.ops[id], AfterStatus(s, a, id, s.ops[id].scope, cancel, refreshed);
      && id in t.ops
      && (cancel ==> t.ops[id].phase == Cancelled)
      && (!cancel && was.phase == Refreshing ==> t.ops[id].phase == if refreshed then Complete else Refreshing)
      && (!cancel && was.phase == Waiting ==>
            t.ops[id].phase == if s.clock - was.started >= 120_000 then TimedOut else Waiting)
      && (!cancel && was.phase !in {Waiting, Refreshing} ==> t.ops[id].phase == was.phase)
      && (a in t.polls <==> !cancel && was.phase == Waiting && s.clock - was.started < 120_000 && was.nextPoll <= s.clock)
      && (a in t.polls ==>
            && t.polls[a] == Poll(id, was.baseline)
            && t.ops[id].nextPoll == s.clock + if s.clock - was.started < 20_000 then 2_000 else 5_000)
  {
  }

  /** The end of a `sync` call: what it found becomes the baseline, and polling starts two seconds later;
      a call that failed fails the operation. */
  lemma ReturnMeans(s: State, id: Id, outcome: Option<Account>)
    requires id in s.inFlight && id in s.ops
    ensures
      var t := AfterReturn(s, id, outcome);
      && id !in t.inFlight && id in t.ops
      && (outcome.None? ==> t.ops[id] == s.ops[id].(phase := Failed))
      && (outcome.Some? ==> t.ops[id] == s.ops[id].(baseline := outcome, phase := Waiting, nextPoll := s.clock + 2_000))
  {
  }

  /** An invalidation counts once per operation, and only if it succeeds; a poll that was refused for its
      authorization may be repeated at once. */
  lemma InvalidateAndRefusalMean(s: State, id: Id, succeeds: bool, a: Actor)
    requires id in s.ops
    ensures
      var t := AfterInvalidate(s, id, succeeds);
      && t.ops[id].invalidated == (s.ops[id].invalidated || succeeds)
      && t.invalidations == s.invalidations + (if succeeds && !s.ops[id].invalidated then multiset{id} else multiset{})
    ensures a in s.polls && s.polls[a].id == id ==>
              a !in AfterUnauthorized(s, a).polls
              && AfterUnauthorized(s, a).ops == s.ops[id := s.ops[id].(nextPoll := s.clock)]
  {
  }

  lemma Ahead(s: State, l: Label, next: State, run: seq<Label>)
    requires Can(s, l) && Apply(s, l) == next && IsRun(next, run)
    ensures IsRun(s, [l] + run) && End(s, [l] + run) == End(next, run)
  {
    assert ([l] + run)[1..] == run;
  }

  lemma Stays(s: State)
    ensures IsRun(s, []) && End(s, []) == s
  {
  }

  /** A fresh success completes: polled when it is due, with the account connected and its success dated
      after the baseline, a waiting operation is complete once the library refresh is acknowledged. */
  lemma FreshSuccessCompletes(s: State, a: Actor, id: Id, seen: Account)
    requires a !in s.polls && id in s.ops && s.ops[id].phase == Waiting
    requires s.clock - s.ops[id].started < 120_000 && s.ops[id].nextPoll <= s.clock
    requires seen.connected && !seen.expired && seen.state == Some("SYNC_SUCCESS") && seen.date.Some?
    requires
      s.ops[id].baseline.Some? && s.ops[id].baseline.value.date.Some? ==>
        s.ops[id].baseline.value.date.value < seen.date.value
    ensures
      var scope := s.ops[id].scope;
      var run := [Status(a, id, scope, false, false)] + ([Observe(a, Some(seen))] + ([Status(a, id, scope, false, true)] + []));
      IsRun(s, run) && id in End(s, run).ops && End(s, run).ops[id].phase == Complete
  {
    hide IsRun, End;
    var scope := s.ops[id].scope;
    var asked := AfterStatus(s, a, id, scope, false, false);
    StatusMeans(s, a, id, false, false);
    ObservedIff(s.ops[id].baseline, Some(seen));
    var observed := AfterObserve(asked, a, Some(seen));
    ObserveMeans(asked, a, Some(seen));
    var done := AfterStatus(observed, a, id, scope, false, true);
    StatusMeans(observed, a, id, false, true);
    hide AfterStatus, AfterObserve, Observed;
    Stays(done);
    Ahead(observed, Status(a, id, scope, false, true), done, []);
    Ahead(asked, Observe(a, Some(seen)), observed, [Status(a, id, scope, false, true)] + []);
    Ahead(s, Status(a, id, scope, false, false), asked,
          [Observe(a, Some(seen))] + ([Status(a, id, scope, false, true)] + []));
  }

  lemma ObserveMeans(s: State, a: Actor, current: Option<Account>)
    requires a in s.polls && s.polls[a].id in s.ops
    ensures
      var id, t := s.polls[a].id, AfterObserve(s, a, current);
      && a !in t.polls && id in t.ops && t.ops[id].scope == s.ops[id].scope
      && t.ops[id].phase == (if s.ops[id].phase == Waiting then Observed(s.polls[a].baseline, current) else s.ops[id].phase)
  {
    hide Observed;
  }

  /** An operation is complete only after a poll saw a success dated later than the operation's baseline,
      if that has a date, and only after the refreshed library was acknowledged. */
  lemma CompletionIsProved(run: seq<Label>, id: Id)
    requires IsRun(INITIAL, run) && id in End(INITIAL, run).ops
    ensures
      var s := End(INITIAL, run);
      && (s.ops[id].phase.Complete? || s.ops[id].phase.Refreshing? ==>
            id in s.proof && Proves(s.ops[id].baseline, s.proof[id]))
      && (s.ops[id].phase.Complete? ==> id in s.acked)
      && (s.ops[id].phase.TimedOut? ==> s.clock - s.ops[id].started >= 120_000)
  {
    InitialInv();
    RunKeepsInv(INITIAL, run);
    assert Evident(End(INITIAL, run), id);
  }

  /** At most 8 operations, all of one account scope, and each is invalidated successfully at most once. */
  lemma OperationsAreBounded(run: seq<Label>, id: Id)
    requires IsRun(INITIAL, run)
    ensures
      var s := End(INITIAL, run);
      && |s.ops| <= 8
      && (forall i, j :: i in s.ops && j in s.ops ==> s.ops[i].scope == s.ops[j].scope)
      && s.invalidations[id] <= 1
  {
    InitialInv();
    RunKeepsInv(INITIAL, run);
  }

  /** Once its `sync` call has returned, an operation's phase only moves on: what left waiting never
      returns to it, whatever poll answers arrive late, and only cancelling ends what has ended. */
  lemma PhasesOnlyAdvance(before: seq<Label>, after: seq<Label>, id: Id)
    requires IsRun(INITIAL, before)
    requires IsRun(End(INITIAL, before), after)
    requires id in End(INITIAL, before).ops && id !in End(INITIAL, before).inFlight
    requires id in End(End(INITIAL, before), after).ops
    ensures
      Advances(End(INITIAL, before).ops[id].phase, End(End(INITIAL, before), after).ops[id].phase)
  {
    InitialInv();
    RunKeepsInv(INITIAL, before);
    hide Apply, Can;
    RunMoves(End(INITIAL, before), after, id);
  }

  /** A cancelled observation stays cancelled on every continuation exactly when its `sync` call has
      returned: a call still in flight writes its outcome over the cancellation. */
  lemma CancellationHoldsIffReturned(run: seq<Label>, id: Id)
    requires IsRun(INITIAL, run)
    requires id in End(INITIAL, run).ops && End(INITIAL, run).ops[id].phase.Cancelled?
    ensures
      StaysCancelled(End(INITIAL, run), id) <==> id !in End(INITIAL, run).inFlight
  {
    InitialInv();
    RunKeepsInv(INITIAL, run);
    StaysCancelledIff(End(INITIAL, run), id);
  }

  ghost predicate StaysCancelled(s: State, id: Id) {
    forall run :: IsRun(s, run) && id in End(s, run).ops ==> End(s, run).ops[id].phase.Cancelled?
  }

  lemma StaysCancelledIff(s: State, id: Id)
    requires Inv(s) && id in s.ops && s.ops[id].phase.Cancelled?
    ensures StaysCancelled(s, id) <==> id !in s.inFlight
  {
    if id in s.inFlight {
      var run := [Return(id, None)];
      var t := Apply(s, Return(id, None));
      assert run[1..] == [] && IsRun(t, []) && End(t, []) == t;
      assert IsRun(s, run) && End(s, run) == t;
      assert id in t.ops && t.ops[id].phase.Failed?;
    } else {
      forall run | IsRun(s, run) && id in End(s, run).ops
        ensures End(s, run).ops[id].phase.Cancelled?
      {
        RunMoves(s, run, id);
      }
    }
  }

  /** Two operations of one provider are active together only if the `sync` call of one of them wrote
      over its cancellation. */
  lemma OneActivePerProvider(run: seq<Label>, i: Id, j: Id)
    requires IsRun(INITIAL, run) && i != j
    requires i in End(INITIAL, run).ops && j in End(INITIAL, run).ops
    requires End(INITIAL, run).ops[i].provider == End(INITIAL, run).ops[j].provider
    requires End(INITIAL, run).ops[i].phase.Active() && End(INITIAL, run).ops[j].phase.Active()
    ensures i in End(INITIAL, run).revived || j in End(INITIAL, run).revived
  {
    InitialInv();
    RunKeepsInv(INITIAL, run);
  }

  /** That does happen: a second `sync` of the provider is answered with the running operation and
      cancels it; a third starts anew; and then the first call comes back. */
  lemma CancelledCallComesBack(p: Provider, scope: Scope, a: Actor, account: Account)
    ensures
      var run := [Begin(0, p, scope), Begin(1, p, scope), Status(a, 0, scope, true, false), Begin(2, p, scope),
                  Return(0, Some(account))];
      && IsRun(INITIAL, run)
      && 0 in End(INITIAL, run).ops && End(INITIAL, run).ops[0].phase.Waiting?
      && 2 in End(INITIAL, run).ops && End(INITIAL, run).ops[2].phase.Starting?
  {
    var first := Operation(p, scope, None, Starting, 0, 0, false);
    var s1 := INITIAL.(ops := map[0 := first], inFlight := {0}, used := {0});
    BeginOnEmpty(p, scope);
    BeginBesideRunning(s1, p, scope);
    var r1, s5 := ComesBackOnceCancelled(s1, p, scope, a, account);
    hide AfterBegin, AfterStatus, AfterReturn;
    var r0 := [Begin(1, p, scope)] + r1;
    assert IsRun(s1, r0) && End(s1, r0) == s5 by { assert r0[1..] == r1; }
    var run := [Begin(0, p, scope)] + r0;
    assert IsRun(INITIAL, run) && End(INITIAL, run) == s5 by { assert run[1..] == r0; }
    assert run == [Begin(0, p, scope), Begin(1, p, scope), Status(a, 0, scope, true, false), Begin(2, p, scope),
                   Return(0, Some(account))];
  }

  // From the running operation on.
  lemma ComesBackOnceCancelled(s1: State, p: Provider, scope: Scope, a: Actor, account: Account)
    returns (r1: seq<Label>, s5: State)
    requires
      s1 == INITIAL.(ops := map[0 := Operation(p, scope, None, Starting, 0, 0, false)], inFlight := {0}, used := {0})
    ensures r1 == [Status(a, 0, scope, true, false), Begin(2, p, scope), Return(0, Some(account))]
    ensures IsRun(s1, r1) && End(s1, r1) == s5
    ensures 0 in s5.ops && s5.ops[0].phase.Waiting? && 2 in s5.ops && s5.ops[2].phase.Starting?
  {
    var first := s1.ops[0];
    var s2 := s1.(ops := map[0 := first.(phase := Cancelled)]);
    var s3 := s1.(ops := map[0 := first.(phase := Cancelled), 2 := first], inFlight := {0, 2}, used := {0, 2});
    assert AfterStatus(s1, a, 0, scope, true, false) == s2;
    BeginBesideCancelled(s2, p, scope);
    s5 := AfterReturn(s3, 0, Some(account));
    assert 0 in s5.ops && s5.ops[0].phase.Waiting? && 2 in s5.ops && s5.ops[2].phase.Starting?;
    hide AfterBegin, AfterStatus, AfterReturn;
    var r3 := [Return(0, Some(account))];
    var r2 := [Begin(2, p, scope)] + r3;
    r1 := [Status(a, 0, scope, true, false)] + r2;
    assert IsRun(s5, []) && End(s5, []) == s5;
    assert IsRun(s3, r3) && End(s3, r3) == s5 by { assert r3[1..] == []; }
    assert IsRun(s2, r2) && End(s2, r2) == s5 by { assert r2[1..] == r3; }
    assert IsRun(s1, r1) && End(s1, r1) == s5 by { assert r1[1..] == r2; }
  }

  lemma BeginOnEmpty(p: Provider, scope: Scope)
    ensures
      AfterBegin(INITIAL, 0, p, scope)
      == INITIAL.(ops := map[0 := Operation(p, scope, None, Starting, 0, 0, false)], inFlight := {0}, used := {0})
  {
    assert Current(INITIAL, scope) == map[];
  }

  // A call of a provider that is already syncing is answered with that operation.
  lemma BeginBesideRunning(s: State, p: Provider, scope: Scope)
    requires s.clock == 0 && s.ops == map[0 := Operation(p, scope, None, Starting, 0, 0, false)]
    ensures AfterBegin(s, 1, p, scope) == s
  {
    assert Current(s, scope) == s.ops;
    assert s.ops[0].provider == p && s.ops[0].phase.Active();
  }

  lemma BeginBesideCancelled(s: State, p: Provider, scope: Scope)
    requires s.clock == 0 && s.ops.Keys == {0} && s.inFlight == {0} && s.used == {0}
    requires s.ops[0] == Operation(p, scope, None, Cancelled, 0, 0, false)
    ensures
      AfterBegin(s, 2, p, scope)
      == s.(ops := map[0 := s.ops[0], 2 := Operation(p, scope, None, Starting, 0, 0, false)],
            inFlight := {0, 2}, used := {0, 2})
  {
    assert Current(s, scope) == s.ops == map[0 := s.ops[0]];
    assert |s.ops| == |s.ops.Keys| == 1;
  }
}
