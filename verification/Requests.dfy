/** Bounded ownership of RPC requests, and the per-request token whose mutex is at once the commit
    fence, the cancellation point and the receipt of an allocation. */
module Requests {
  import opened Wrappers

  const MAX_ACTIVE: nat := 8
  const MAX_BACKGROUND: nat := 4

  // ---- The table of admitted requests ----

  // Tokens are told apart by the number of the admission that made them.
  datatype Entry = Entry(background: bool, token: nat)

  datatype Permit = Permit(id: string, token: nat)

  predicate IsBackground(name: string) {
    "catalog." <= name || "artwork." <= name || name == "network.regions.ping" || name == "queue.servers.list"
  }

  function BackgroundIds(active: map<string, Entry>): set<string> {
    set id | id in active && active[id].background
  }

  predicate MayAdmit(active: map<string, Entry>, id: string, name: string) {
    && id !in active
    && |active| < MAX_ACTIVE
    && (IsBackground(name) ==> |BackgroundIds(active)| < MAX_BACKGROUND)
  }

  lemma OneMoreEntry(active: map<string, Entry>, id: string, e: Entry)
    requires id !in active
    ensures |active[id := e]| == |active| + 1
    ensures |BackgroundIds(active[id := e])| == |BackgroundIds(active)| + (if e.background then 1 else 0)
  {
    assert active[id := e].Keys == active.Keys + {id};
    OneMoreBackground(active, id, e);
    assert id !in BackgroundIds(active);
    hide BackgroundIds;
  }

  lemma OneMoreBackground(active: map<string, Entry>, id: string, e: Entry)
    requires id !in active
    ensures BackgroundIds(active[id := e]) == BackgroundIds(active) + (if e.background then {id} else {})
  {
    var more, ids := active[id := e], BackgroundIds(active) + (if e.background then {id} else {});
    forall k
      ensures k in BackgroundIds(more) <==> k in ids
    {
      assert k in more <==> k in active || k == id;
    }
  }

  class RequestTable {
    var active: map<string, Entry>
    var admitted: nat
    ghost var live: set<Permit>

    // Entries and permits not yet dropped correspond one to one, and both bounds hold.
    ghost predicate Valid()
      reads this
    {
      && |active| <= 8 && |BackgroundIds(active)| <= 4
      && (forall p | p in live :: p.id in active && active[p.id].token == p.token)
      && (forall id | id in active :: Permit(id, active[id].token) in live && active[id].token < admitted)
    }

    constructor ()
      ensures Valid() && active == map[] && live == {}
    {
      active, admitted, live := map[], 0, {};
    }

    /** A request is admitted exactly when its id is free and neither bound is reached. */
    method Admit(id: string, name: string) returns (permit: Option<Permit>)
      requires Valid()
      modifies this
      ensures Valid()
      ensures permit.Some? <==> MayAdmit(old(active), id, name)
      ensures
        var background := "catalog." <= name || "artwork." <= name || name == "network.regions.ping" || name == "queue.servers.list";
        && (permit.Some? <==>
              && id !in old(active) && |old(active)| < 8
              && (background ==> |set k | k in old(active) && old(active)[k].background| < 4))
        && (permit.Some? ==> id in active && active[id].background == background)
      ensures permit.None? ==> unchanged(this)
      ensures permit.Some? ==>
                && permit.value.id == id && permit.value !in old(live) && live == old(live) + {permit.value}
                && (forall q | q in old(live) :: q.token != permit.value.token)
                && active == old(active)[id := Entry(IsBackground(name), permit.value.token)]
    {
      var background := IsBackground(name);
      if id in active || |active| >= MAX_ACTIVE || (background && |BackgroundIds(active)| >= MAX_BACKGROUND) {
        return None;
      }
      var p := Permit(id, admitted);
      OneMoreEntry(active, id, Entry(background, admitted));
      hide BackgroundIds;
      active := active[id := Entry(background, admitted)];
      admitted := admitted + 1;
      live := live + {p};
      return Some(p);
    }

    /** Dropping a permit removes its own entry and no other. */
    method Drop(permit: Permit)
      requires Valid() && permit in live
      modifies this
      ensures Valid()
      ensures live == old(live) - {permit}
      ensures active == old(active) - {permit.id} && old(active)[permit.id].token == permit.token
    {
      ghost var before := active;
      active := active - {permit.id};
      assert |active| <= |before| by {
        assert active.Keys == before.Keys - {permit.id};
      }
      assert |BackgroundIds(active)| <= |BackgroundIds(before)| by {
        assert BackgroundIds(active) == BackgroundIds(before) - {permit.id};
      }
      live := live - {permit};
    }
  }

  // ---- One token, shared by its worker, the reader thread and any helper threads ----

  datatype Event = BodyStarted(t: nat) | BodyEnded(t: nat) | Rejected(t: nat) | Cancelled | Acknowledged | Verdict(accepted: bool)

  /** `holder` is the thread inside a commit body, which keeps the mutex for the whole body; every
      other use of the mutex is instantaneous. `log` records what happened, in order. */
  datatype Token = Token(cancelled: bool, accepted: bool, holder: Option<nat>, log: seq<Event>)

  datatype Label = EnterCommit(t: nat) | LeaveCommit(t: nat) | Cancel | Acknowledge | AwaitReturns

  predicate Can(s: Token, l: Label) {
    if l.LeaveCommit? then s.holder == Some(l.t) else s.holder.None?
  }

  function Apply(s: Token, l: Label): Token
    requires Can(s, l)
  {
    match l
    case EnterCommit(t) =>
      if s.cancelled then s.(log := s.log + [Rejected(t)])
      else s.(holder := Some(t), log := s.log + [BodyStarted(t)])
    case LeaveCommit(t) => s.(holder := None, log := s.log + [BodyEnded(t)])
    case Cancel => s.(cancelled := true, log := s.log + [Cancelled])
    case Acknowledge => s.(accepted := true, log := s.log + [Acknowledged])
    case AwaitReturns => s.(log := s.log + [Verdict(s.accepted && !s.cancelled)])
  }

  predicate IsRun(s: Token, run: seq<Label>)
    decreases |run|
  {
    run == [] || (Can(s, run[0]) && IsRun(Apply(s, run[0]), run[1..]))
  }

  function End(s: Token, run: seq<Label>): Token
    requires IsRun(s, run)
    decreases |run|
  {
    if run == [] then s else End(Apply(s, run[0]), run[1..])
  }

  const NEW := Token(false, false, None, [])

  // No cancellation comes before a body's start or end, and a refused body has one before it; a
  // verdict is yes exactly when an acknowledgement and no cancellation came before it.
  predicate Fenced(log: seq<Event>) {
    forall j | 0 <= j < |log| ::
      && (log[j].BodyStarted? || log[j].BodyEnded? ==> Cancelled !in log[..j])
      && (log[j].Rejected? ==> Cancelled in log[..j])
      && (log[j].Verdict? ==> (log[j].accepted <==> Acknowledged in log[..j] && Cancelled !in log[..j]))
  }

  predicate Inv(s: Token) {
    && (s.cancelled <==> Cancelled in s.log)
    && (s.accepted <==> Acknowledged in s.log)
    && (s.holder.Some? ==> !s.cancelled)
    && Fenced(s.log)
  }

  lemma StepKeepsInv(s: Token, l: Label)
    requires Inv(s) && Can(s, l)
    ensures Inv(Apply(s, l))
  {
    var log, log' := s.log, Apply(s, l).log;
    assert log'[..|log|] == log;
    forall j | 0 <= j < |log|
      ensures log'[..j] == log[..j] && log'[j] == log[j]
    {
    }
  }

  lemma {:induction false} RunKeepsInv(s: Token, run: seq<Label>)
    requires Inv(s) && IsRun(s, run)
    ensures Inv(End(s, run))
    decreases |run|
  {
    if run != [] {
      StepKeepsInv(s, run[0]);
      RunKeepsInv(Apply(s, run[0]), run[1..]);
    }
  }

  /** The commit fence and the hand-off, over every interleaving: a commit body starts and ends with
      no completed cancellation before its end, is refused exactly because one came first, and
      `await_acceptance` says yes exactly after an acknowledgement with no earlier cancellation. */
  lemma CommitFence(run: seq<Label>, j: nat)
    requires IsRun(NEW, run) && j < |End(NEW, run).log|
    ensures
      var log := End(NEW, run).log;
      && (log[j].BodyStarted? || log[j].BodyEnded? ==> Cancelled !in log[..j])
      && (log[j].Rejected? ==> Cancelled in log[..j])
      && (log[j].Verdict? ==> (log[j].accepted <==> Acknowledged in log[..j] && Cancelled !in log[..j]))
  {
    RunKeepsInv(NEW, run);
  }
}
