/** The coalescing mailbox of the Discord presence service and its one worker thread.

    Callers replace the desired activity and queue a waiter under the mailbox lock; the worker takes
    both in one snapshot, converges its connection towards the snapshot and answers the waiters.
    Each label is one lock acquisition or one transport call, so a run is an interleaving of any
    callers with the worker. The transport may abandon itself in any of its calls. */
module Mailbox {
  import opened Wrappers

  type Signature = nat

  const MAX_WAITERS: nat := 8

  // `intent` is the number of the request the waiter belongs to, counted from 1.
  datatype Waiter = Waiter(intent: nat)

  datatype Snapshot = Snapshot(desired: Option<Signature>, basis: nat, waiters: seq<Waiter>)

  datatype Status = Cleared(connected: bool) | Connected(signature: Signature) | Pending | Terminal | WorkerStopped

  // `acked` is what the peer last acknowledged on this very connection.
  datatype Connection = Connection(applied: Option<Signature>, acked: Option<Signature>)

  datatype Pc =
    | Top
    | Converging(snap: Snapshot)
    | Connecting(snap: Snapshot)
    | Setting(snap: Snapshot)
    | Acknowledged(snap: Snapshot)
    | Replying(snap: Snapshot, status: Status)
    | Checking
    | Servicing
    | Stopped

  datatype Answer = Answer(intent: nat, basis: nat, status: Status)

  /** `intents` is every request so far (None is a clear), `connects` counts connection attempts and
      `answers` lists what waiters were sent. */
  datatype State = State(
    desired: Option<Signature>,
    waiters: seq<Waiter>,
    abandoned: bool,
    connection: Option<Connection>,
    pc: Pc,
    intents: seq<Option<Signature>>,
    connects: nat,
    answers: seq<Answer>)

  const INITIAL := State(None, [], false, None, Top, [], 0, [])

  datatype Outcome = Success | Failure | TerminalFailure

  datatype Label =
    | Post(intent: Option<Signature>)
    | TakeSnapshot(retryDue: bool)
    | Converge(abandon: bool)
    | Connect(outcome: Outcome, abandon: bool)
    | SetActivity(outcome: Outcome, abandon: bool, abandonOnDrop: bool)
    | RecordApplied
    | Reply
    | CheckAbandoned
    | Service(lost: bool, abandon: bool)
    | Shutdown

  function Latest(intents: seq<Option<Signature>>): Option<Signature> {
    if intents == [] then None else intents[|intents| - 1]
  }

  predicate Can(s: State, l: Label) {
    match l
    case Post(_) => true
    case TakeSnapshot(retryDue) => s.pc.Top? && (retryDue ==> s.connection.None? && s.desired.Some? && !s.abandoned)
    case Converge(_) => s.pc.Converging?
    case Connect(_, _) => s.pc.Connecting?
    case SetActivity(_, _, _) => s.pc.Setting?
    case RecordApplied => s.pc.Acknowledged?
    case Reply => s.pc.Replying?
    case CheckAbandoned => s.pc.Checking?
    case Service(_, _) => s.pc.Servicing?
    case Shutdown => s.pc.Servicing?
  }

  function Terminate(s: State, snap: Snapshot): State {
    s.(connection := None, abandoned := true, desired := None, pc := Replying(snap, Terminal))
  }

  function Answers(waiters: seq<Waiter>, basis: nat, status: Status): seq<Answer> {
    seq(|waiters|, i requires 0 <= i < |waiters| => Answer(waiters[i].intent, basis, status))
  }

  function Apply(s: State, l: Label): State
    requires Can(s, l)
  {
    match l
    case Post(intent) =>
      var kept := if |s.waiters| >= MAX_WAITERS then s.waiters[1..] else s.waiters;
      s.(desired := intent, intents := s.intents + [intent], waiters := kept + [Waiter(|s.intents| + 1)])
    case TakeSnapshot(retryDue) =>
      var snap := Snapshot(s.desired, |s.intents|, s.waiters);
      s.(waiters := [], pc := if s.waiters != [] || retryDue then Converging(snap) else Checking)
    case Converge(abandon) =>
      var snap := s.pc.snap;
      if snap.desired.None? then
        // `release`: the connection, if any, is cleared and dropped.
        s.(pc := Replying(snap, Cleared(s.connection.Some?)), connection := None,
           abandoned := s.abandoned || (abandon && s.connection.Some?))
      else if s.connection.Some? && s.connection.value.applied == snap.desired then
        s.(pc := Replying(snap, Connected(snap.desired.value)))
      else if s.abandoned then s.(pc := Replying(snap, Terminal))
      else s.(pc := if s.connection.None? then Connecting(snap) else Setting(snap))
    case Connect(outcome, abandon) =>
      var t := s.(connects := s.connects + 1, abandoned := s.abandoned || abandon);
      if outcome.Success? then t.(connection := Some(Connection(None, None)), pc := Setting(s.pc.snap))
      else if outcome.TerminalFailure? then Terminate(t, s.pc.snap)
      else t.(pc := Replying(s.pc.snap, Pending))
    case SetActivity(outcome, abandon, abandonOnDrop) =>
      var t := s.(abandoned := s.abandoned || abandon);
      if outcome.Success? && s.connection.Some? then
        t.(connection := Some(s.connection.value.(acked := s.pc.snap.desired)), pc := Acknowledged(s.pc.snap))
      else if t.abandoned || outcome.TerminalFailure? then Terminate(t, s.pc.snap)
      else t.(connection := None, abandoned := abandonOnDrop, pc := Replying(s.pc.snap, Pending))
    case RecordApplied =>
      if s.connection.Some? && s.pc.snap.desired.Some? then
        s.(connection := Some(s.connection.value.(applied := s.pc.snap.desired)),
           pc := Replying(s.pc.snap, Connected(s.pc.snap.desired.value)))
      else s.(pc := Replying(s.pc.snap, Pending))
    case Reply =>
      s.(pc := Checking, answers := s.answers + Answers(s.pc.snap.waiters, s.pc.snap.basis, s.pc.status))
    case CheckAbandoned =>
      if s.abandoned then s.(connection := None, desired := None, pc := Servicing) else s.(pc := Servicing)
    case Service(lost, abandon) =>
      s.(pc := Top, connection := if lost then None else s.connection,
         abandoned := s.abandoned || (abandon && s.connection.Some?))
    case Shutdown =>
      s.(pc := Stopped, connection := None, waiters := [],
         answers := s.answers + Answers(s.waiters, |s.intents|, WorkerStopped))
  }

  predicate IsRun(s: State, run: seq<Label>)
    decreases |run|
  {
    run == [] || (Can(s, run[0]) && IsRun(Apply(s, run[0]), run[1..]))
  }

  function End(s: State, run: seq<Label>): State
    requires IsRun(s, run)
    decreases |run|
  {
    if run == [] then s else End(Apply(s, run[0]), run[1..])
  }

  // ---- Invariant ----

  // A desired activity is the latest of the first `n` requests, unless abandonment dropped it.
  predicate Current(desired: Option<Signature>, intents: seq<Option<Signature>>, n: nat, abandoned: bool) {
    n <= |intents| && (desired == Latest(intents[..n]) || (abandoned && desired.None?))
  }

  predicate SnapshotInv(s: State, snap: Snapshot) {
    && Current(snap.desired, s.intents, snap.basis, s.abandoned)
    && (forall i | 0 <= i < |snap.waiters| :: 1 <= snap.waiters[i].intent <= snap.basis)
  }

  predicate PcInv(s: State) {
    match s.pc
    case Converging(snap) => SnapshotInv(s, snap)
    case Connecting(snap) => SnapshotInv(s, snap) && snap.desired.Some? && s.connection.None? && !s.abandoned
    case Setting(snap) => SnapshotInv(s, snap) && snap.desired.Some? && s.connection.Some?
    case Acknowledged(snap) =>
      SnapshotInv(s, snap) && snap.desired.Some? && s.connection.Some? && s.connection.value.acked == snap.desired
    case Replying(snap, status) =>
      && SnapshotInv(s, snap)
      && (status.Connected? ==>
            snap.desired == Some(status.signature) && s.connection.Some? && s.connection.value.acked == snap.desired)
      && (status.Cleared? ==> snap.desired.None? && s.connection.None?)
      && (status.Terminal? ==> s.abandoned)
    case _ => true
  }

  // What holds of every answer ever sent.
  predicate Truthful(s: State, a: Answer) {
    && 1 <= a.intent <= a.basis <= |s.intents|
    && (a.status.Connected? ==> Latest(s.intents[..a.basis]) == Some(a.status.signature))
    && (a.status.Cleared? ==> Latest(s.intents[..a.basis]).None? || s.abandoned)
    && (a.status.Terminal? ==> s.abandoned)
  }

  predicate Inv(s: State) {
    && |s.waiters| <= MAX_WAITERS
    && (forall i | 0 <= i < |s.waiters| :: 1 <= s.waiters[i].intent <= |s.intents|)
    && Current(s.desired, s.intents, |s.intents|, s.abandoned)
    && (s.connection.Some? && !s.pc.Acknowledged? ==> s.connection.value.applied == s.connection.value.acked)
    && PcInv(s)
    && (forall i | 0 <= i < |s.answers| :: Truthful(s, s.answers[i]))
  }

  // More requests do not change what an earlier snapshot saw.
  lemma EarlierPrefix(intents: seq<Option<Signature>>, more: Option<Signature>, n: nat)
    requires n <= |intents|
    ensures (intents + [more])[..n] == intents[..n]
  {
  }

  lemma PostKeepsInv(s: State, intent: Option<Signature>)
    requires Inv(s)
    ensures Inv(Apply(s, Post(intent)))
  {
    var s' := Apply(s, Post(intent));
    assert s'.intents[..|s'.intents|] == s'.intents;
    forall n: nat | n <= |s.intents|
      ensures s'.intents[..n] == s.intents[..n]
    {
      EarlierPrefix(s.intents, intent, n);
    }
  }

  lemma AnswersStayTrue(s: State, t: State)
    requires forall i | 0 <= i < |s.answers| :: Truthful(s, s.answers[i])
    requires t.answers == s.answers && t.intents == s.intents && (s.abandoned ==> t.abandoned)
    ensures forall i | 0 <= i < |t.answers| :: Truthful(t, t.answers[i])
  {
  }

  lemma TransportKeepsInv(s: State, l: Label)
    requires Inv(s) && Can(s, l) && (l.Connect? || l.SetActivity? || l.RecordApplied?)
    ensures Inv(Apply(s, l))
  {
    assert s.intents[..|s.intents|] == s.intents;
    AnswersStayTrue(s, Apply(s, l));
    hide Truthful;
  }

  lemma WorkerKeepsInv(s: State, l: Label)
    requires Inv(s) && Can(s, l)
    requires l.TakeSnapshot? || l.Converge? || l.CheckAbandoned? || l.Service?
    ensures Inv(Apply(s, l))
  {
    assert s.intents[..|s.intents|] == s.intents;
    AnswersStayTrue(s, Apply(s, l));
    hide Truthful;
  }

  lemma AnsweringKeepsInv(s: State, l: Label)
    requires Inv(s) && Can(s, l) && (l.Reply? || l.Shutdown?)
    ensures Inv(Apply(s, l))
  {
    assert s.intents[..|s.intents|] == s.intents;
  }

  lemma StepKeepsInv(s: State, l: Label)
    requires Inv(s) && Can(s, l)
    ensures Inv(Apply(s, l))
  {
    hide Inv, Apply, Can;
    match l {
      case Post(intent) => PostKeepsInv(s, intent);
      case Reply => AnsweringKeepsInv(s, l);
      case Shutdown => AnsweringKeepsInv(s, l);
      case Connect(_, _) => TransportKeepsInv(s, l);
      case SetActivity(_, _, _) => TransportKeepsInv(s, l);
      case RecordApplied => TransportKeepsInv(s, l);
      case _ => WorkerKeepsInv(s, l);
    }
  }

  lemma {:induction false} RunKeepsInv(s: State, run: seq<Label>)
    requires Inv(s) && IsRun(s, run)
    ensures Inv(End(s, run))
    decreases |run|
  {
    hide Inv, Apply, Can;
    if run != [] {
      StepKeepsInv(s, run[0]);
      RunKeepsInv(Apply(s, run[0]), run[1..]);
    }
  }

  // ---- Main results ----

  /** No answer is stale or untrue: whatever the interleaving, every status a waiter was sent rests
      on a request at least as new as its own; "connected" names the latest activity asked for up to
      then; "cleared" means the latest request was a clear, or the transport was abandoned. The
      queue never exceeds its bound. */
  lemma AnswersAreNeverStale(run: seq<Label>, i: nat)
    requires IsRun(INITIAL, run) && i < |End(INITIAL, run).answers|
    ensures
      var s := End(INITIAL, run);
      |s.waiters| <= MAX_WAITERS && Truthful(s, s.answers[i])
  {
    RunKeepsInv(INITIAL, run);
  }

  /** `applied` is always what the peer last acknowledged on that same connection, except in the
      instant between the acknowledgement and its recording; and a "connected" status is being sent
      only while that activity is the acknowledged one, a "cleared" one only without a connection. */
  lemma AppliedIsAcknowledged(run: seq<Label>)
    requires IsRun(INITIAL, run)
    ensures
      var s := End(INITIAL, run);
      && (s.connection.Some? && !s.pc.Acknowledged? ==> s.connection.value.applied == s.connection.value.acked)
      && (s.pc.Replying? && s.pc.status.Connected? ==>
            s.connection.Some? && s.connection.value.acked == Some(s.pc.status.signature))
      && (s.pc.Replying? && s.pc.status.Cleared? ==> s.connection.None?)
  {
    RunKeepsInv(INITIAL, run);
  }

  /** No connection attempt is ever begun on an abandoned transport. */
  lemma ConnectNeedsLiveTransport(run: seq<Label>, l: Label)
    requires IsRun(INITIAL, run) && l.Connect? && Can(End(INITIAL, run), l)
    ensures !End(INITIAL, run).abandoned
  {
    RunKeepsInv(INITIAL, run);
  }

  lemma StepStaysAbandoned(s: State, l: Label)
    requires Inv(s) && Can(s, l) && s.abandoned
    ensures Apply(s, l).abandoned && Apply(s, l).connects == s.connects
  {
    hide Truthful, Current, SnapshotInv;
  }

  lemma {:induction false} RunStaysAbandoned(s: State, run: seq<Label>)
    requires Inv(s) && IsRun(s, run) && s.abandoned
    ensures End(s, run).abandoned && End(s, run).connects == s.connects
    decreases |run|
  {
    hide Inv, Apply, Can;
    if run != [] {
      StepStaysAbandoned(s, run[0]);
      StepKeepsInv(s, run[0]);
      RunStaysAbandoned(Apply(s, run[0]), run[1..]);
    }
  }

  /** From the moment the transport is abandoned, wherever the worker stands, no continuation connects
      again and the transport stays abandoned. */
  lemma NothingConnectsOnceAbandoned(before: seq<Label>, after: seq<Label>)
    requires IsRun(INITIAL, before) && IsRun(End(INITIAL, before), after)
    requires End(INITIAL, before).abandoned
    ensures
      var s, t := End(INITIAL, before), End(End(INITIAL, before), after);
      t.abandoned && t.connects == s.connects
  {
    RunKeepsInv(INITIAL, before);
    hide Inv, Apply, Can;
    RunStaysAbandoned(End(INITIAL, before), after);
  }

  // ---- Failures that pass, and rounds that succeed ----

  // No call abandons the transport, and no failure is terminal.
  predicate Harmless(l: Label) {
    match l
    case Converge(abandon) => !abandon
    case Connect(outcome, abandon) => !abandon && !outcome.TerminalFailure?
    case SetActivity(outcome, abandon, abandonOnDrop) => !abandon && !abandonOnDrop && !outcome.TerminalFailure?
    case Service(_, abandon) => !abandon
    case _ => true
  }

  lemma {:induction false} HarmlessRunStaysLive(s: State, run: seq<Label>)
    requires Inv(s) && !s.abandoned && IsRun(s, run) && forall i | 0 <= i < |run| :: Harmless(run[i])
    ensures !End(s, run).abandoned
    decreases |run|
  {
    hide Inv;
    if run != [] {
      StepKeepsInv(s, run[0]);
      HarmlessStep(s, run[0]);
      HarmlessRunStaysLive(Apply(s, run[0]), run[1..]);
    }
  }

  lemma HarmlessStep(s: State, l: Label)
    requires Can(s, l) && !s.abandoned && Harmless(l)
    ensures !Apply(s, l).abandoned
  {
  }

  /** Plain failures never give up: in a run in which no call abandons the transport and no failure is
      terminal, whatever else fails, the desired activity is the last one asked for. */
  lemma FailuresKeepTheIntent(run: seq<Label>)
    requires IsRun(INITIAL, run) && forall i | 0 <= i < |run| :: Harmless(run[i])
    ensures
      var s := End(INITIAL, run);
      && !s.abandoned
      && s.desired == (if s.intents == [] then None else s.intents[|s.intents| - 1])
  {
    RunKeepsInv(INITIAL, run);
    HarmlessRunStaysLive(INITIAL, run);
    assert End(INITIAL, run).intents[..|End(INITIAL, run).intents|] == End(INITIAL, run).intents;
  }

  /** A terminal failure, or one on a transport that has abandoned itself, is answered as such and drops
      the desired activity; a plain failure to connect keeps both. */
  lemma FailuresDiffer(s: State, l: Label)
    requires Inv(s) && Can(s, l)
    ensures l.Connect? && l.outcome.TerminalFailure? ==>
              Apply(s, l).abandoned && Apply(s, l).desired.None? && Apply(s, l).pc == Replying(s.pc.snap, Terminal)
    ensures l.Connect? && l.outcome.Failure? ==>
              && Apply(s, l).abandoned == (s.abandoned || l.abandon) && Apply(s, l).desired == s.desired
              && Apply(s, l).pc == Replying(s.pc.snap, Pending)
    ensures l.SetActivity? && !l.outcome.Success? && (s.abandoned || l.abandon || l.outcome.TerminalFailure?) ==>
              Apply(s, l).abandoned && Apply(s, l).desired.None? && Apply(s, l).pc == Replying(s.pc.snap, Terminal)
    ensures l.SetActivity? && l.outcome.Failure? && !s.abandoned && !l.abandon ==>
              && Apply(s, l).abandoned == l.abandonOnDrop && Apply(s, l).desired == s.desired
              && Apply(s, l).connection == None && Apply(s, l).pc == Replying(s.pc.snap, Pending)
  {
    hide Truthful, SnapshotInv, Current;
  }

  /** Converging: a clear drops the connection and says whether there was one; an activity that is already
      applied is confirmed without a call; an abandoned transport is refused; and otherwise the worker
      connects, or sets the activity on the connection it has. */
  lemma ConvergeMeans(s: State, abandon: bool)
    requires Can(s, Converge(abandon))
    ensures
      var snap, t := s.pc.snap, Apply(s, Converge(abandon));
      && t.answers == s.answers && t.waiters == s.waiters && t.desired == s.desired && t.connects == s.connects
      && (snap.desired == None ==> t.connection == None && t.pc == Replying(snap, Cleared(s.connection != None)))
      && (snap.desired.Some? ==> t.connection == s.connection && t.abandoned == s.abandoned)
      && (snap.desired.Some? && s.connection.Some? && s.connection.value.applied == snap.desired ==>
            t.pc == Replying(snap, Connected(snap.desired.value)))
      && (snap.desired.Some? && !(s.connection.Some? && s.connection.value.applied == snap.desired) ==>
            t.pc == if s.abandoned then Replying(snap, Terminal) else if s.connection == None then Connecting(snap) else Setting(snap))
  {
  }

  /** Nobody waits for a worker that has stopped: everyone still in the queue is told so. */
  lemma ShutdownAnswersAll(s: State)
    requires Can(s, Shutdown)
    ensures
      var t := Apply(s, Shutdown);
      && t.waiters == [] && t.connection == None && t.pc == Stopped && |t.answers| == |s.answers| + |s.waiters|
      && (forall k | 0 <= k < |s.answers| :: t.answers[k] == s.answers[k])
      && (forall k | 0 <= k < |s.waiters| ::
            t.answers[|s.answers| + k].intent == s.waiters[k].intent && t.answers[|s.answers| + k].status == WorkerStopped)
  {
  }

  /** A post replaces the desired activity and joins the queue, from which the oldest of eight falls. */
  lemma PostQueues(s: State, intent: Option<Signature>)
    requires Inv(s)
    ensures
      var t := Apply(s, Post(intent));
      && t.desired == intent && t.intents == s.intents + [intent]
      && t.waiters == (if |s.waiters| < 8 then s.waiters else s.waiters[1..]) + [Waiter(|s.intents| + 1)]
      && t.answers == s.answers && t.pc == s.pc && t.connection == s.connection
  {
    hide Truthful, PcInv, Current;
  }

  lemma Ahead(s: State, l: Label, next: State, run: seq<Label>)
    requires Can(s, l) && Apply(s, l) == next && IsRun(next, run)
    ensures IsRun(s, [l] + run) && End(s, [l] + run) == End(next, run)
  {
    assert ([l] + run)[1..] == run;
  }

  lemma Stays(s: State)
    ensures IsRun(s, []) && End(s, []) == s
  {
  }

  // The end of a round that has set its activity.
  lemma RoundEnds(s: State, snap: Snapshot, d: Signature)
    requires s.pc == Setting(snap) && snap.desired == Some(d) && s.connection.Some? && !s.abandoned
    ensures
      var run := [SetActivity(Success, false, false)] + ([RecordApplied] + ([Reply] + []));
      && IsRun(s, run)
      && End(s, run) == s.(connection := Some(Connection(Some(d), Some(d))), pc := Checking,
                           answers := s.answers + Answers(snap.waiters, snap.basis, Connected(d)))
  {
    hide IsRun, End, Answers;
    var acked := s.(connection := Some(s.connection.value.(acked := Some(d))), pc := Acknowledged(snap));
    var recorded := s.(connection := Some(Connection(Some(d), Some(d))), pc := Replying(snap, Connected(d)));
    var replied := recorded.(pc := Checking, answers := s.answers + Answers(snap.waiters, snap.basis, Connected(d)));
    Stays(replied);
    Ahead(recorded, Reply, replied, []);
    Ahead(acked, RecordApplied, recorded, [Reply] + []);
    Ahead(s, SetActivity(Success, false, false), acked, [RecordApplied] + ([Reply] + []));
  }

  /** A round in which nothing fails connects, sets the activity asked for last, and tells every waiter
      so, in the order they came. */
  lemma HealthyRoundConnects(s: State, d: Signature)
    requires Inv(s) && s.pc.Top? && s.connection.None? && s.desired == Some(d) && !s.abandoned && s.waiters != []
    ensures
      var run := [TakeSnapshot(false)] + ([Converge(false)] + ([Connect(Success, false)]
                 + ([SetActivity(Success, false, false)] + ([RecordApplied] + ([Reply] + [])))));
      && IsRun(s, run)
      && var t := End(s, run);
      && t.connection == Some(Connection(Some(d), Some(d))) && t.waiters == [] && t.connects == s.connects + 1
      && |t.answers| == |s.answers| + |s.waiters| && t.answers[..|s.answers|] == s.answers
      && (forall k | 0 <= k < |s.waiters| ::
            t.answers[|s.answers| + k] == Answer(s.waiters[k].intent, |s.intents|, Connected(d)))
  {
    hide IsRun, End;
    var snap := Snapshot(Some(d), |s.intents|, s.waiters);
    var converging := s.(waiters := [], pc := Converging(snap));
    var connecting := converging.(pc := Connecting(snap));
    var setting := connecting.(connects := s.connects + 1, connection := Some(Connection(None, None)), pc := Setting(snap));
    RoundEnds(setting, snap, d);
    var rest := [SetActivity(Success, false, false)] + ([RecordApplied] + ([Reply] + []));
    Ahead(connecting, Connect(Success, false), setting, rest);
    Ahead(converging, Converge(false), connecting, [Connect(Success, false)] + rest);
    Ahead(s, TakeSnapshot(false), converging, [Converge(false)] + ([Connect(Success, false)] + rest));
  }

  // The worker has passed its check on an abandoned transport.
  predicate Sealed(s: State) {
    && s.abandoned && s.connection.None?
    && !s.pc.Connecting? && !s.pc.Setting? && !s.pc.Acknowledged?
    && (s.pc.Replying? ==> s.pc.status in {Terminal, Cleared(false)})
  }

  lemma CheckSeals(s: State)
    requires Inv(s) && Can(s, CheckAbandoned) && s.abandoned
    ensures Sealed(Apply(s, CheckAbandoned)) && Apply(s, CheckAbandoned).desired.None?
  {
  }

  predicate Refusal(status: Status) {
    status in {Terminal, Cleared(false), WorkerStopped}
  }

  lemma StepStaysSealed(s: State, l: Label)
    requires Sealed(s) && Can(s, l)
    ensures
      var s' := Apply(s, l);
      && Sealed(s') && s'.connects == s.connects && |s.answers| <= |s'.answers|
      && (forall i | |s.answers| <= i < |s'.answers| :: Refusal(s'.answers[i].status))
      && (forall i | 0 <= i < |s.answers| :: s'.answers[i] == s.answers[i])
      && (l.CheckAbandoned? ==> s'.desired.None?)
  {
  }

  /** Abandonment is terminal: once the worker has passed its check, no continuation connects again,
      and every later answer is a refusal; each further pass of the check drops what was posted. */
  lemma {:induction false} AbandonmentIsTerminal(s: State, run: seq<Label>)
    requires Sealed(s) && IsRun(s, run)
    ensures
      var s' := End(s, run);
      && Sealed(s') && s'.connects == s.connects && |s.answers| <= |s'.answers|
      && (forall i | 0 <= i < |s.answers| :: s'.answers[i] == s.answers[i])
      && (forall i | |s.answers| <= i < |s'.answers| :: Refusal(s'.answers[i].status))
    decreases |run|
  {
    if run != [] {
      StepStaysSealed(s, run[0]);
      AbandonmentIsTerminal(Apply(s, run[0]), run[1..]);
      var t, s' := Apply(s, run[0]), End(s, run);
      forall i | |s.answers| <= i < |s'.answers|
        ensures Refusal(s'.answers[i].status)
      {
        if i < |t.answers| {
          assert s'.answers[i] == t.answers[i];
        }
      }
    }
  }
}
