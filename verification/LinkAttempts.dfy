/** Account linking: a caller is admitted under the attempts lock, fetches a login URL without it, and
    installs its attempt under it again; a poll likewise looks, lists accounts, and concludes. Each
    action below is one stretch under the lock, so a run is an interleaving of callers, polls and
    cancellations. */
module LinkAttempts {
  import opened Wrappers

  type Id = nat
  type Actor = nat
  type Scope = nat

  const MAX_ATTEMPTS: nat := 8
  const LIFETIME: nat := 300_000
  const RECHECK: nat := 2_000

  datatype Attempt = Attempt(scope: Scope, expires: nat, callback: bool, nextCheck: nat)

  /** What a poll finds in the callback channel: nothing, a result, or an error or a dead sender. */
  datatype Reply = Empty | Arrived | Broken

  /** Beside the service's fields: `starters` holds the generation each caller was admitted under,
      `pollers` the attempt each poll is verifying, `origin` the generation under which the starter of
      every attempt ever installed was admitted, `stopped` the attempts whose callback listener was told to stop,
      `answered` those whose callback arrived and `completed` those reported complete. */
  datatype State = State(
    clock: nat,
    generation: nat,
    attempts: map<Id, Attempt>,
    starters: map<Actor, nat>,
    pollers: map<Actor, Id>,
    origin: map<Id, nat>,
    stopped: set<Id>,
    answered: set<Id>,
    completed: set<Id>)

  const INITIAL := State(0, 0, map[], map[], map[], map[], {}, {}, {})

  datatype Label =
    | Tick(ms: nat)
    | CancelPending
    | Admit(a: Actor)
    | GiveUp(a: Actor)
    | Install(a: Actor, id: Id, scope: Scope)
    | Poll(a: Actor, id: Id, scope: Scope, reply: Reply)
    | Unauthorized(a: Actor)
    | PollFailed(a: Actor)
    | Conclude(a: Actor, connected: bool)

  predicate Can(s: State, l: Label) {
    match l
    case Tick(_) => true
    case CancelPending => true
    case Admit(a) => a !in s.starters
    case GiveUp(a) => a in s.starters
    case Install(a, id, _) => a in s.starters && id !in s.origin
    case Poll(a, _, _, _) => a !in s.pollers
    case Unauthorized(a) => a in s.pollers
    case PollFailed(a) => a in s.pollers
    case Conclude(a, _) => a in s.pollers
  }

  // Dropping attempts tells their listeners to stop.
  function Keep(s: State, kept: set<Id>): (t: State)
    ensures t.attempts.Keys == s.attempts.Keys * kept
    ensures forall id :: id in t.attempts ==> t.attempts[id] == s.attempts[id]
    ensures t.stopped == s.stopped + (s.attempts.Keys - t.attempts.Keys)
    ensures t == s.(attempts := t.attempts, stopped := t.stopped)
  {
    s.(attempts := map id | id in s.attempts && id in kept :: s.attempts[id],
       stopped := s.stopped + (s.attempts.Keys - kept))
  }

  function Drop(s: State, id: Id): State {
    Keep(s, s.attempts.Keys - {id})
  }

  function Pruned(s: State): State {
    Keep(s, set id | id in s.attempts && s.attempts[id].expires > s.clock)
  }

  // An attempt that stays changes in its callback and its next check only.
  function Update(s: State, id: Id, callback: bool, nextCheck: nat): State
    requires id in s.attempts
  {
    s.(attempts := s.attempts[id := s.attempts[id].(callback := callback, nextCheck := nextCheck)])
  }

  function AfterAdmit(s: State, a: Actor): State {
    var t := Pruned(s);
    if |t.attempts| >= MAX_ATTEMPTS then t else t.(starters := s.starters[a := s.generation])
  }

  function AfterInstall(s: State, a: Actor, id: Id, scope: Scope): State
    requires a in s.starters
  {
    if s.generation != s.starters[a] || |s.attempts| >= MAX_ATTEMPTS then s.(starters := s.starters - {a})
    else
      s.(starters := s.starters - {a},
         attempts := s.attempts[id := Attempt(scope, s.clock + LIFETIME, false, s.clock)],
         origin := s.origin[id := s.starters[a]])
  }

  function AfterPoll(s: State, a: Actor, id: Id, scope: Scope, reply: Reply): State {
    if id !in s.attempts || s.attempts[id].scope != scope then s
    else if s.clock >= s.attempts[id].expires then Drop(s, id)
    else if !s.attempts[id].callback && reply == Broken then Drop(s, id)
    else if !s.attempts[id].callback && reply == Empty then s
    else Answered(s, a, id)
  }

  // The callback is in: unless the last check was just now, the poll goes on to list the accounts.
  function Answered(s: State, a: Actor, id: Id): State
    requires id in s.attempts
  {
    if s.clock < s.attempts[id].nextCheck then
      Update(s, id, true, s.attempts[id].nextCheck).(answered := s.answered + {id})
    else
      Update(s, id, true, s.clock + RECHECK).(answered := s.answered + {id}, pollers := s.pollers[a := id])
  }

  function AfterUnauthorized(s: State, a: Actor): State
    requires a in s.pollers
  {
    var id := s.pollers[a];
    var t := s.(pollers := s.pollers - {a});
    if id in s.attempts then Update(t, id, s.attempts[id].callback, s.clock) else t
  }

  function AfterConclude(s: State, a: Actor, connected: bool): State
    requires a in s.pollers
  {
    var t := s.(pollers := s.pollers - {a});
    if connected then Drop(t, s.pollers[a]).(completed := s.completed + {s.pollers[a]}) else t
  }

  function Apply(s: State, l: Label): State
    requires Can(s, l)
  {
    match l
    case Tick(ms) => s.(clock := s.clock + ms)
    case CancelPending => Keep(s, {}).(generation := s.generation + 1)
    case Admit(a) => AfterAdmit(s, a)
    case GiveUp(a) => s.(starters := s.starters - {a})
    case Install(a, id, scope) => AfterInstall(s, a, id, scope)
    case Poll(a, id, scope, reply) => AfterPoll(s, a, id, scope, reply)
    case Unauthorized(a) => AfterUnauthorized(s, a)
    case PollFailed(a) => s.(pollers := s.pollers - {a})
    case Conclude(a, connected) => AfterConclude(s, a, connected)
  }

  predicate IsRun(s: State, run: seq<Label>)
    decreases |run|
  {
    run == [] || (Can(s, run[0]) && IsRun(Apply(s, run[0]), run[1..]))
  }

  function End(s: State, run: seq<Label>): State
    requires IsRun(s, run)
    decreases |run|
  {
    if run == [] then s else End(Apply(s, run[0]), run[1..])
  }

  // ---- The invariant ----

  // At most 8 attempts, all admitted under the current generation.
  ghost predicate InvCurrent(s: State) {
    && |s.attempts| <= MAX_ATTEMPTS
    && (forall id :: id in s.attempts ==> id in s.origin && s.origin[id] == s.generation)
    && (forall a :: a in s.starters ==> s.starters[a] <= s.generation)
  }

  ghost predicate InvStopped(s: State) {
    s.attempts.Keys <= s.origin.Keys && s.stopped == s.origin.Keys - s.attempts.Keys
  }

  ghost predicate InvTimes(s: State) {
    forall id :: id in s.attempts ==> s.attempts[id].expires <= s.clock + LIFETIME
  }

  ghost predicate InvAnswers(s: State) {
    && s.answered <= s.origin.Keys
    && (forall id :: id in s.attempts ==> id in s.origin && (s.attempts[id].callback ==> id in s.answered))
    && (forall a :: a in s.pollers ==> s.pollers[a] in s.answered)
    && s.completed <= s.answered
  }

  ghost predicate Inv(s: State) {
    InvCurrent(s) && InvStopped(s) && InvTimes(s) && InvAnswers(s)
  }

  lemma KeepIsSmaller(s: State, kept: set<Id>)
    ensures |Keep(s, kept).attempts| <= |s.attempts|
  {
    hide Keep;
    SubsetIsSmaller(Keep(s, kept).attempts.Keys, s.attempts.Keys);
  }

  lemma UpdateKeepsKeys(s: State, id: Id, callback: bool, nextCheck: nat)
    requires id in s.attempts
    ensures Update(s, id, callback, nextCheck).attempts.Keys == s.attempts.Keys
    ensures |Update(s, id, callback, nextCheck).attempts| == |s.attempts|
  {
    var t := Update(s, id, callback, nextCheck);
    assert t.attempts.Keys == s.attempts.Keys;
    assert |t.attempts.Keys| == |t.attempts| && |s.attempts.Keys| == |s.attempts|;
  }

  // What every step but an install does: attempts only go, and those that go are stopped.
  ghost predicate Shrinks(s: State, t: State) {
    && t.attempts.Keys <= s.attempts.Keys && |t.attempts| <= |s.attempts|
    && t.origin == s.origin
    && t.stopped == s.stopped + (s.attempts.Keys - t.attempts.Keys)
    && (t.generation == s.generation || (t.generation > s.generation && t.attempts == map[]))
    && (forall a :: a in t.starters ==> t.starters[a] == s.generation || (a in s.starters && t.starters[a] == s.starters[a]))
  }

  ghost predicate Installs(s: State, t: State, id: Id) {
    && |s.attempts| < MAX_ATTEMPTS && |t.attempts| <= |s.attempts| + 1 && id !in s.origin
    && t.attempts.Keys == s.attempts.Keys + {id}
    && t.origin == s.origin[id := s.generation]
    && t.stopped == s.stopped && t.generation == s.generation
    && (forall a :: a in t.starters ==> a in s.starters && t.starters[a] == s.starters[a])
  }

  lemma KeepShrinks(s: State, kept: set<Id>)
    ensures Shrinks(s, Keep(s, kept))
  {
    KeepIsSmaller(s, kept);
    hide Keep;
  }

  lemma SameKeysShrinks(s: State, t: State)
    requires t.attempts.Keys == s.attempts.Keys && |t.attempts| == |s.attempts|
    requires t.origin == s.origin && t.stopped == s.stopped && t.generation == s.generation
    requires forall a :: a in t.starters ==> a in s.starters && t.starters[a] == s.starters[a]
    ensures Shrinks(s, t)
  {
    assert s.attempts.Keys - t.attempts.Keys == {};
  }

  // `Shrinks` looks at the attempts and what is recorded about them, not at polls or answers.
  lemma ShrinksWithout(s: State, t: State, pollers: map<Actor, Id>, p: map<Actor, Id>, completed: set<Id>)
    requires Shrinks(s.(pollers := pollers), t)
    ensures Shrinks(s, t.(pollers := p, completed := completed))
  {
  }

  lemma PollShrinks(s: State, a: Actor, id: Id, scope: Scope, reply: Reply)
    ensures Shrinks(s, AfterPoll(s, a, id, scope, reply))
  {
    hide Keep, Shrinks, Answered;
    KeepShrinks(s, s.attempts.Keys - {id});
    SameKeysShrinks(s, s);
    if id in s.attempts {
      AnsweredShrinks(s, a, id);
    }
  }

  lemma AnsweredShrinks(s: State, a: Actor, id: Id)
    requires id in s.attempts
    ensures Shrinks(s, Answered(s, a, id))
  {
    UpdateKeepsKeys(s, id, true, s.attempts[id].nextCheck);
    UpdateKeepsKeys(s, id, true, s.clock + RECHECK);
    SameKeysShrinks(s, Answered(s, a, id));
  }

  lemma UnauthorizedShrinks(s: State, a: Actor)
    requires a in s.pollers
    ensures Shrinks(s, AfterUnauthorized(s, a))
  {
    var id := s.pollers[a];
    if id in s.attempts {
      UpdateKeepsKeys(s.(pollers := s.pollers - {a}), id, s.attempts[id].callback, s.clock);
    }
    SameKeysShrinks(s, AfterUnauthorized(s, a));
  }

  lemma ConcludeShrinks(s: State, a: Actor, connected: bool)
    requires a in s.pollers
    ensures Shrinks(s, AfterConclude(s, a, connected))
  {
    hide Keep, Shrinks;
    var p := s.pollers - {a};
    var t := s.(pollers := p);
    SameKeysShrinks(s, t);
    KeepShrinks(t, t.attempts.Keys - {s.pollers[a]});
    var kept := Drop(t, s.pollers[a]);
    ShrinksWithout(s, kept, p, kept.pollers, s.completed + {s.pollers[a]});
  }

  lemma OneMoreKey(m: map<Id, Attempt>, id: Id, attempt: Attempt)
    requires id !in m
    ensures m[id := attempt].Keys == m.Keys + {id} && |m[id := attempt]| == |m| + 1
  {
    assert m[id := attempt].Keys == m.Keys + {id};
    assert |m[id := attempt].Keys| == |m.Keys| + 1;
  }

  lemma InstallSucceeds(s: State, a: Actor, id: Id, scope: Scope)
    requires a in s.starters && id !in s.origin && s.attempts.Keys <= s.origin.Keys
    requires s.generation == s.starters[a] && |s.attempts| < MAX_ATTEMPTS
    ensures Installs(s, AfterInstall(s, a, id, scope), id)
  {
    OneMoreKey(s.attempts, id, Attempt(scope, s.clock + LIFETIME, false, s.clock));
  }

  lemma InstallInstalls(s: State, a: Actor, id: Id, scope: Scope)
    requires a in s.starters && id !in s.origin && s.attempts.Keys <= s.origin.Keys
    ensures
      var t := AfterInstall(s, a, id, scope);
      Shrinks(s, t) || Installs(s, t, id)
  {
    hide Shrinks, Installs;
    if s.generation != s.starters[a] || |s.attempts| >= MAX_ATTEMPTS {
      SameKeysShrinks(s, AfterInstall(s, a, id, scope));
    } else {
      InstallSucceeds(s, a, id, scope);
    }
  }

  lemma CancelShrinks(s: State)
    ensures Shrinks(s, Keep(s, {}).(generation := s.generation + 1))
  {
    KeepShrinks(s, {});
    hide Keep;
  }

  lemma AdmitShrinks(s: State, a: Actor)
    ensures Shrinks(s, AfterAdmit(s, a))
  {
    KeepShrinks(s, set id | id in s.attempts && s.attempts[id].expires > s.clock);
    hide Keep;
  }

  lemma StepShape(s: State, l: Label)
    requires Can(s, l) && s.attempts.Keys <= s.origin.Keys
    ensures Shrinks(s, Apply(s, l)) || (l.Install? && Installs(s, Apply(s, l), l.id))
  {
    hide Shrinks, Installs, Keep, AfterAdmit, AfterInstall, AfterPoll, AfterUnauthorized, AfterConclude;
    match l {
      case CancelPending => CancelShrinks(s);
      case Admit(a) => AdmitShrinks(s, a);
      case Install(a, id, scope) => InstallInstalls(s, a, id, scope);
      case Poll(a, id, scope, reply) => PollShrinks(s, a, id, scope, reply);
      case Unauthorized(a) => UnauthorizedShrinks(s, a);
      case Conclude(a, connected) => ConcludeShrinks(s, a, connected);
      case _ => SameKeysShrinks(s, Apply(s, l));
    }
  }

  lemma ShrinkingKeepsCurrent(s: State, t: State)
    requires Shrinks(s, t) && InvCurrent(s)
    ensures InvCurrent(t)
  {
  }

  lemma ShrinkingKeepsStopped(s: State, t: State)
    requires Shrinks(s, t) && InvStopped(s)
    ensures InvStopped(t)
  {
    forall id
      ensures id in t.stopped <==> id in t.origin && id !in t.attempts
    {
      assert id in t.attempts.Keys ==> id in s.attempts.Keys;
      assert id in s.attempts.Keys ==> id in s.origin.Keys;
    }
  }

  lemma InstallingKeepsCurrent(s: State, t: State, id: Id)
    requires Installs(s, t, id) && InvCurrent(s)
    ensures InvCurrent(t)
  {
  }

  lemma InstallingKeepsStopped(s: State, t: State, id: Id)
    requires Installs(s, t, id) && InvStopped(s)
    ensures InvStopped(t)
  {
  }

  lemma StepKeepsAttempts(s: State, l: Label)
    requires InvCurrent(s) && InvStopped(s) && Can(s, l)
    ensures InvCurrent(Apply(s, l)) && InvStopped(Apply(s, l))
  {
    assert s.attempts.Keys <= s.origin.Keys;
    hide Apply, Can, InvCurrent, InvStopped, Shrinks, Installs;
    StepShape(s, l);
    if Shrinks(s, Apply(s, l)) {
      ShrinkingKeepsCurrent(s, Apply(s, l));
      ShrinkingKeepsStopped(s, Apply(s, l));
    } else {
      InstallingKeepsCurrent(s, Apply(s, l), l.id);
      InstallingKeepsStopped(s, Apply(s, l), l.id);
    }
  }

  lemma PollKeepsTimes(s: State, a: Actor, id: Id, scope: Scope, reply: Reply)
    requires InvTimes(s)
    ensures InvTimes(AfterPoll(s, a, id, scope, reply))
  {
    hide Keep;
  }

  lemma StepKeepsTimes(s: State, l: Label)
    requires InvTimes(s) && Can(s, l)
    ensures InvTimes(Apply(s, l))
  {
    hide Keep, AfterPoll;
    if l.Poll? {
      PollKeepsTimes(s, l.a, l.id, l.scope, l.reply);
    }
  }

  lemma KeepKeepsAnswers(s: State, kept: set<Id>)
    requires InvAnswers(s)
    ensures InvAnswers(Keep(s, kept))
  {
    hide Keep;
  }

  lemma PollKeepsAnswers(s: State, a: Actor, id: Id, scope: Scope, reply: Reply)
    requires InvAnswers(s)
    ensures InvAnswers(AfterPoll(s, a, id, scope, reply))
  {
    KeepKeepsAnswers(s, s.attempts.Keys - {id});
    hide Keep;
  }

  lemma AdmitKeepsAnswers(s: State, a: Actor)
    requires InvAnswers(s)
    ensures InvAnswers(AfterAdmit(s, a))
  {
    hide Keep;
  }

  lemma ConcludeKeepsAnswers(s: State, a: Actor, connected: bool)
    requires InvAnswers(s) && a in s.pollers
    ensures InvAnswers(AfterConclude(s, a, connected))
  {
    hide Keep;
  }

  lemma UnauthorizedKeepsAnswers(s: State, a: Actor)
    requires InvAnswers(s) && a in s.pollers
    ensures InvAnswers(AfterUnauthorized(s, a))
  {
  }

  lemma InstallKeepsAnswers(s: State, a: Actor, id: Id, scope: Scope)
    requires InvAnswers(s) && a in s.starters && id !in s.origin
    ensures InvAnswers(AfterInstall(s, a, id, scope))
  {
  }

  lemma StepKeepsAnswers(s: State, l: Label)
    requires InvAnswers(s) && Can(s, l)
    ensures InvAnswers(Apply(s, l))
  {
    hide Keep, AfterInstall, AfterPoll, AfterAdmit, AfterUnauthorized, AfterConclude;
    match l {
      case Admit(a) => AdmitKeepsAnswers(s, a);
      case Install(a, id, scope) => InstallKeepsAnswers(s, a, id, scope);
      case Poll(a, id, scope, reply) => PollKeepsAnswers(s, a, id, scope, reply);
      case Unauthorized(a) => UnauthorizedKeepsAnswers(s, a);
      case Conclude(a, connected) => ConcludeKeepsAnswers(s, a, connected);
      case _ =>
    }
  }

  // Admission generations are recorded once, the counter only grows, and no stop is taken back.
  lemma StepOnlyAdds(s: State, l: Label)
    requires Can(s, l) && s.attempts.Keys <= s.origin.Keys
    ensures s.generation <= Apply(s, l).generation
    ensures forall id :: id in s.origin ==> id in Apply(s, l).origin && Apply(s, l).origin[id] == s.origin[id]
    ensures s.stopped <= Apply(s, l).stopped
  {
    hide Apply, Can;
    StepShape(s, l);
  }

  lemma StepKeepsInv(s: State, l: Label)
    requires Inv(s) && Can(s, l)
    ensures Inv(Apply(s, l))
  {
    hide InvCurrent, InvStopped, InvTimes, InvAnswers, Apply, Can;
    StepKeepsAttempts(s, l);
    StepKeepsTimes(s, l);
    StepKeepsAnswers(s, l);
  }

  lemma {:induction false} RunKeepsInv(s: State, run: seq<Label>)
    requires Inv(s) && IsRun(s, run)
    ensures Inv(End(s, run))
    decreases |run|
  {
    hide InvCurrent, InvStopped, InvTimes, InvAnswers, Apply, Can;
    if run != [] {
      StepKeepsInv(s, run[0]);
      RunKeepsInv(Apply(s, run[0]), run[1..]);
    }
  }

  lemma {:induction false} RunOnlyAdds(s: State, run: seq<Label>)
    requires Inv(s) && IsRun(s, run)
    ensures s.generation <= End(s, run).generation
    ensures forall id :: id in s.origin ==> id in End(s, run).origin && End(s, run).origin[id] == s.origin[id]
    ensures s.stopped <= End(s, run).stopped
    decreases |run|
  {
    hide Apply;
    if run != [] {
      StepKeepsInv(s, run[0]);
      StepOnlyAdds(s, run[0]);
      RunOnlyAdds(Apply(s, run[0]), run[1..]);
    }
  }

  lemma InitialInv()
    ensures Inv(INITIAL)
  {
  }

  // ---- What each step does, over all labels ----

  /** An attempt goes in a step exactly if everything is cancelled, it has expired and a caller is
      admitted, its own account polls it after it expired or with its callback broken off, or its poll
      concludes that the account is connected. */
  lemma AttemptGoesIff(s: State, l: Label, id: Id)
    requires Can(s, l) && id in s.attempts && s.attempts.Keys <= s.origin.Keys
    ensures id !in Apply(s, l).attempts <==>
              match l
              case CancelPending => true
              case Admit(_) => s.attempts[id].expires <= s.clock
              case Poll(_, polled, scope, reply) =>
                polled == id && scope == s.attempts[id].scope
                && (s.attempts[id].expires <= s.clock || (!s.attempts[id].callback && reply == Broken))
              case Conclude(a, connected) => connected && s.pollers[a] == id
              case _ => false
  {
  }

  /** An attempt comes in a step exactly if a caller installs it who was admitted under the current
      generation, with fewer than 8 present; it then lives for five minutes. */
  lemma AttemptComesIff(s: State, l: Label, id: Id)
    requires Can(s, l) && id !in s.attempts
    ensures id in Apply(s, l).attempts <==>
              l.Install? && l.id == id && s.starters[l.a] == s.generation && |s.attempts| < 8
    ensures id in Apply(s, l).attempts ==>
              Apply(s, l).attempts[id] == Attempt(l.scope, s.clock + 300_000, false, s.clock)
  {
  }

  /** A caller is admitted exactly if fewer than 8 attempts have not expired. */
  lemma CallerIsAdmittedIff(s: State, a: Actor)
    requires a !in s.starters
    ensures a in AfterAdmit(s, a).starters <==> |set id | id in s.attempts && s.attempts[id].expires > s.clock| < 8
    ensures a in AfterAdmit(s, a).starters ==> AfterAdmit(s, a).starters[a] == s.generation
  {
    var live := set id | id in s.attempts && s.attempts[id].expires > s.clock;
    assert Pruned(s).attempts.Keys == live;
    assert |Pruned(s).attempts.Keys| == |Pruned(s).attempts|;
  }

  /** A poll goes on to the accounts exactly if it is of a live attempt of its own scope whose callback is
      in, with its last check two seconds ago; the next check is then two seconds away. */
  lemma PollVerifiesIff(s: State, a: Actor, id: Id, scope: Scope, reply: Reply)
    requires a !in s.pollers
    ensures
      var t := AfterPoll(s, a, id, scope, reply);
      && (a in t.pollers <==>
            && id in s.attempts && s.attempts[id].scope == scope && s.clock < s.attempts[id].expires
            && (s.attempts[id].callback || reply == Arrived) && s.attempts[id].nextCheck <= s.clock)
      && (a in t.pollers ==>
            t.pollers[a] == id && id in t.attempts && t.attempts[id].callback && t.attempts[id].nextCheck == s.clock + 2_000)
  {
  }

  /** A verification refused for its authorization may be repeated at once; one that fails otherwise waits
      for the next check. */
  lemma RefusedVerification(s: State, a: Actor)
    requires a in s.pollers && s.pollers[a] in s.attempts
    ensures
      var id := s.pollers[a];
      && Apply(s, Unauthorized(a)).attempts == s.attempts[id := s.attempts[id].(nextCheck := s.clock)]
      && Apply(s, PollFailed(a)).attempts == s.attempts
      && a !in Apply(s, Unauthorized(a)).pollers && a !in Apply(s, PollFailed(a)).pollers
  {
  }

  // A link completes in a step exactly if the poll verifying it concludes that the account is connected.
  lemma CompletesIff(s: State, l: Label, id: Id)
    requires Can(s, l) && id !in s.completed
    ensures id in Apply(s, l).completed <==> l.Conclude? && l.connected && s.pollers[l.a] == id
  {
  }

  lemma {:induction false} CompletedBy(s: State, run: seq<Label>, id: Id) returns (i: nat)
    requires IsRun(s, run) && id in End(s, run).completed && id !in s.completed
    ensures i < |run| && IsRun(s, run[..i])
    ensures run[i].Conclude? && run[i].connected
    ensures run[i].a in End(s, run[..i]).pollers && End(s, run[..i]).pollers[run[i].a] == id
    decreases |run|
  {
    hide Apply;
    CompletesIff(s, run[0], id);
    if id in Apply(s, run[0]).completed {
      i := 0;
    } else {
      var k := CompletedBy(Apply(s, run[0]), run[1..], id);
      i := k + 1;
      assert run[..i][1..] == run[1..][..k];
    }
  }

  // ---- Main results ----

  /** In every interleaving at most 8 attempts exist, all admitted under the current generation, and
      every attempt that is gone had its listener told to stop, and no other had. */
  lemma AttemptsAreBoundedAndCurrent(run: seq<Label>)
    requires IsRun(INITIAL, run)
    ensures
      var s := End(INITIAL, run);
      && |s.attempts| <= 8
      && s.attempts.Keys <= s.origin.Keys
      && (forall id :: id in s.attempts ==> s.origin[id] == s.generation)
      && s.stopped == s.origin.Keys - s.attempts.Keys
  {
    InitialInv();
    RunKeepsInv(INITIAL, run);
  }

  /** Nothing outlives a cancellation: an attempt present after it was installed after it, by a caller
      who was admitted after it, and everything installed before it has been told to stop. */
  lemma NothingOutlivesCancel(before: seq<Label>, after: seq<Label>)
    requires IsRun(INITIAL, before)
    requires IsRun(Apply(End(INITIAL, before), CancelPending), after)
    ensures
      var s := End(INITIAL, before);
      var t := End(Apply(s, CancelPending), after);
      && t.attempts.Keys !! s.origin.Keys
      && (forall id :: id in t.attempts ==> id in t.origin && t.origin[id] > s.generation)
      && s.origin.Keys <= t.stopped
  {
    InitialInv();
    RunKeepsInv(INITIAL, before);
    var s := End(INITIAL, before);
    var cut := Apply(s, CancelPending);
    StepKeepsInv(s, CancelPending);
    assert cut.stopped == s.origin.Keys;
    CancelCuts(cut, after);
  }

  lemma CancelCuts(cut: State, after: seq<Label>)
    requires Inv(cut) && cut.attempts == map[] && IsRun(cut, after)
    ensures
      var t := End(cut, after);
      && t.attempts.Keys !! cut.origin.Keys
      && (forall id :: id in t.attempts ==> id in t.origin && t.origin[id] >= cut.generation)
      && cut.origin.Keys <= t.stopped
  {
    RunKeepsInv(cut, after);
    RunOnlyAdds(cut, after);
    hide Apply, IsRun, End;
  }

  /** A link is reported complete only if its own callback arrived and the poll that was verifying it
      found the account connected. */
  lemma CompletionNeedsCallback(run: seq<Label>, id: Id) returns (i: nat)
    requires IsRun(INITIAL, run) && id in End(INITIAL, run).completed
    ensures id in End(INITIAL, run).answered && id in End(INITIAL, run).origin
    ensures i < |run| && IsRun(INITIAL, run[..i]) && run[i].Conclude? && run[i].connected
    ensures
      var pollers := End(INITIAL, run[..i]).pollers;
      run[i].a in pollers && pollers[run[i].a] == id
  {
    InitialInv();
    RunKeepsInv(INITIAL, run);
    i := CompletedBy(INITIAL, run, id);
  }

  /** Abandoned attempts never block linking for good: once the lifetime has passed, a caller is
      admitted whatever was left behind. */
  lemma AdmissionRecovers(run: seq<Label>, a: Actor)
    requires IsRun(INITIAL, run) && a !in End(INITIAL, run).starters
    ensures a in Apply(Apply(End(INITIAL, run), Tick(300_000)), Admit(a)).starters
  {
    InitialInv();
    RunKeepsInv(INITIAL, run);
    var s := Apply(End(INITIAL, run), Tick(LIFETIME));
    var live := set id | id in s.attempts && s.attempts[id].expires > s.clock;
    assert live == {};
    assert Keep(s, live).attempts == map[];
  }
}
