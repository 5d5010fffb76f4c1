/** PIN locks of the console profiles: the escalating lockout, and the store that writes the
    document before publishing it. Times are milliseconds in an unsigned 64-bit clock. Hash
    verification is an equality test, so a record is written here as the PIN it matches. */
module PinLockout {
  import opened Wrappers

  const U64_MAX: nat := 0xFFFF_FFFF_FFFF_FFFF
  const PIN_MAX_ATTEMPTS: nat := 5
  const LOCKOUT_STEPS_MS: seq<nat> := [30_000, 60_000, 300_000, 900_000]

  datatype Attempts = Attempts(failed: nat, level: nat, lockedUntil: Option<nat>)

  const FRESH := Attempts(0, 0, None)

  datatype Profile = Profile(pin: Option<string>, attempts: Attempts, updatedAt: nat)

  function SaturatingAdd(a: nat, b: nat): nat {
    if a + b > U64_MAX then U64_MAX else a + b
  }

  predicate ValidPin(pin: string) {
    |pin| == 4 && forall i | 0 <= i < |pin| :: '0' <= pin[i] <= '9'
  }

  predicate Locked(a: Attempts, now: nat) {
    a.lockedUntil.Some? && now < a.lockedUntil.value
  }

  function Remaining(a: Attempts, now: nat): nat {
    if Locked(a, now) || a.failed > PIN_MAX_ATTEMPTS then 0 else PIN_MAX_ATTEMPTS - a.failed
  }

  function Step(level: nat): nat {
    LOCKOUT_STEPS_MS[Min(level, 3)]
  }

  function RegisterFailure(a: Attempts, now: nat): Attempts {
    if a.failed + 1 < PIN_MAX_ATTEMPTS then Attempts(a.failed + 1, a.level, None)
    else Attempts(0, Min(a.level + 1, 4), Some(SaturatingAdd(now, Step(a.level))))
  }

  datatype Call =
    | Verify(pin: string)
    | SetPin(pin: string, current: Option<string>)
    | ClearPin(pin: string)
    | Forget

  // `Wrong` is the answer to a wrong PIN, whichever call it came through.
  datatype Reply = NoPin | LockedOut(until: nat) | BadFormat | Wrong(remaining: nat) | Done

  // The answer to a call and the profile it leaves; a profile that is left alone is not written.
  function Serve(p: Option<Profile>, call: Call, now: nat): (Option<Profile>, Reply) {
    if call.Forget? then (None, Done)
    else if call.SetPin? && !ValidPin(call.pin) then (p, BadFormat)
    else if p.None? || p.value.pin.None? then
      if call.SetPin? then (Some(Profile(Some(call.pin), FRESH, now)), Done) else (p, NoPin)
    else
      var given := match call
        case Verify(pin) => pin
        case SetPin(_, current) => if current.Some? then current.value else ""
        case ClearPin(pin) => pin;
      var a := p.value.attempts;
      if Locked(a, now) then (p, LockedOut(a.lockedUntil.value))
      else if !ValidPin(given) then (p, BadFormat)
      else if given != p.value.pin.value then
        var a' := RegisterFailure(a, now);
        (Some(p.value.(attempts := a')), Wrong(Remaining(a', now)))
      else match call
        case Verify(_) => (Some(p.value.(attempts := FRESH)), Done)
        case SetPin(pin, _) => (Some(Profile(Some(pin), FRESH, now)), Done)
        case ClearPin(_) => (Some(Profile(None, FRESH, now)), Done)
  }

  function Lookup<V>(m: map<string, V>, key: string): Option<V> {
    if key in m then Some(m[key]) else None
  }

  function Store(m: map<string, Profile>, key: string, p: Option<Profile>): map<string, Profile> {
    if p.Some? then m[key := p.value] else m - {key}
  }

  // Reading the document back drops a profile with an empty user id.
  function Named(m: map<string, Profile>): map<string, Profile> {
    m - {""}
  }

  class ConsoleProfiles {
    var profiles: map<string, Profile>
    var disk: map<string, Profile>

    // What is published has been written.
    ghost predicate Valid()
      reads this
    {
      profiles == Named(disk) || profiles == disk
    }

    constructor Load(document: map<string, Profile>)
      ensures disk == document && profiles == document - {""} && Valid()
    {
      disk := document;
      profiles := Named(document);
    }

    // Whether the document can be written is the environment's choice; a failure has not replaced it.
    method PersistAndReplace(next: map<string, Profile>, writes: bool) returns (ok: bool)
      modifies this
      ensures ok <==> writes
      ensures ok ==> profiles == next && disk == next
      ensures !ok ==> unchanged(this)
    {
      ok := writes;
      if ok {
        disk := next;
        profiles := next;
      }
    }

    /** `verify`, `set_pin` and `clear_pin`: a call fails exactly when what it has to write cannot be
        written, and then leaves memory and disk as they were; otherwise the caller sees the answer of
        `Serve`, exactly this user's profile has moved, and what changed is on disk as well. The clauses
        after that say, without `Serve`, what each answer means: only the stored PIN succeeds, any other
        well-formed one is counted, and nothing else touches the profiles. */
    method VerifyPin(user: string, pin: string, now: nat, writes: bool) returns (r: Result<Reply, string>)
      requires Valid()
      modifies this
      ensures Valid()
      ensures
        var reply := Serve(Lookup(old(profiles), user), Verify(pin), now).1;
        r.Ok? <==> writes || !(reply.Wrong? || reply.Done?)
      ensures r.Err? ==> unchanged(this)
      ensures r.Ok? ==>
                var (next, reply) := Serve(Lookup(old(profiles), user), Verify(pin), now);
                && r.value == reply && profiles == Store(old(profiles), user, next)
                && (reply.Wrong? || reply.Done? ==> disk == profiles)
      // The stored PIN, outside a lockout, and nothing else opens the profile and clears its failures.
      ensures r == Ok(Done) <==>
                && writes
                && user in old(profiles) && old(profiles)[user].pin == Some(pin)
                && |pin| == 4 && (forall i | 0 <= i < 4 :: '0' <= pin[i] <= '9')
                && (old(profiles)[user].attempts.lockedUntil.Some? ==> old(profiles)[user].attempts.lockedUntil.value <= now)
      ensures r == Ok(Done) ==>
                disk == profiles == old(profiles)[user := old(profiles)[user].(attempts := Attempts(0, 0, None))]
      // Any other PIN of four digits is counted.
      ensures r.Ok? && r.value.Wrong? <==>
                && writes
                && user in old(profiles) && old(profiles)[user].pin.Some? && old(profiles)[user].pin.value != pin
                && |pin| == 4 && (forall i | 0 <= i < 4 :: '0' <= pin[i] <= '9')
                && (old(profiles)[user].attempts.lockedUntil.Some? ==> old(profiles)[user].attempts.lockedUntil.value <= now)
      ensures r.Ok? && r.value.Wrong? ==>
                && disk == profiles && profiles.Keys == old(profiles).Keys
                && var p, a := old(profiles)[user], old(profiles)[user].attempts;
                && profiles == old(profiles)[user := p.(attempts := profiles[user].attempts)]
                && profiles[user].attempts == (
                     if a.failed < 4 then Attempts(a.failed + 1, a.level, None)
                     else Attempts(0, Min(a.level + 1, 4),
                                   Some(Min(now + [30_000, 60_000, 300_000, 900_000][Min(a.level, 3)], 0xFFFF_FFFF_FFFF_FFFF))))
                && r.value.remaining == (if a.failed < 4 then 4 - a.failed else if now < 0xFFFF_FFFF_FFFF_FFFF then 0 else 5)
      ensures r.Ok? && r.value.LockedOut? ==>
                && user in old(profiles) && old(profiles)[user].pin.Some?
                && old(profiles)[user].attempts.lockedUntil == Some(r.value.until) && now < r.value.until
      ensures r == Ok(NoPin) <==> (user in old(profiles) ==> old(profiles)[user].pin.None?)
      ensures r.Err? || !(r.value.Done? || r.value.Wrong?) ==> unchanged(this)
      ensures writes ==> r.Ok?
    {
      if user !in profiles || profiles[user].pin.None? {
        return Ok(NoPin);
      }
      var profile := profiles[user];
      if Locked(profile.attempts, now) {
        return Ok(LockedOut(profile.attempts.lockedUntil.value));
      }
      if !ValidPin(pin) {
        return Ok(BadFormat);
      }
      var right := pin == profile.pin.value;
      profile := profile.(attempts := if right then FRESH else RegisterFailure(profile.attempts, now));
      var ok := PersistAndReplace(profiles[user := profile], writes);
      if !ok {
        return Err("not persisted");
      }
      return Ok(if right then Done else Wrong(Remaining(profile.attempts, now)));
    }

    method SetUserPin(user: string, pin: string, current: Option<string>, now: nat, writes: bool) returns (r: Result<Reply, string>)
      requires Valid()
      modifies this
      ensures Valid()
      ensures
        var reply := Serve(Lookup(old(profiles), user), SetPin(pin, current), now).1;
        r.Ok? <==> writes || !(reply.Wrong? || reply.Done?)
      ensures r.Err? ==> unchanged(this)
      ensures r.Ok? ==>
                var (next, reply) := Serve(Lookup(old(profiles), user), SetPin(pin, current), now);
                && r.value == reply && profiles == Store(old(profiles), user, next)
                && (reply.Wrong? || reply.Done? ==> disk == profiles)
      // An existing PIN is replaced only by a caller who gives it, outside a lockout.
      ensures r == Ok(Done) <==>
                && writes
                && |pin| == 4 && (forall i | 0 <= i < 4 :: '0' <= pin[i] <= '9')
                && (user in old(profiles) && old(profiles)[user].pin.Some? ==>
                      && current == old(profiles)[user].pin
                      && |current.value| == 4 && (forall i | 0 <= i < 4 :: '0' <= current.value[i] <= '9')
                      && (old(profiles)[user].attempts.lockedUntil.Some? ==>
                            old(profiles)[user].attempts.lockedUntil.value <= now))
      ensures r == Ok(Done) ==> disk == profiles == old(profiles)[user := Profile(Some(pin), Attempts(0, 0, None), now)]
      // Any other current PIN of four digits is counted.
      ensures r.Ok? && r.value.Wrong? <==>
                && writes
                && |pin| == 4 && (forall i | 0 <= i < 4 :: '0' <= pin[i] <= '9')
                && user in old(profiles) && old(profiles)[user].pin.Some? && current.Some?
                && current != old(profiles)[user].pin
                && |current.value| == 4 && (forall i | 0 <= i < 4 :: '0' <= current.value[i] <= '9')
                && (old(profiles)[user].attempts.lockedUntil.Some? ==> old(profiles)[user].attempts.lockedUntil.value <= now)
      ensures r.Ok? && r.value.Wrong? ==>
                && disk == profiles && profiles.Keys == old(profiles).Keys
                && var p, a := old(profiles)[user], old(profiles)[user].attempts;
                && profiles == old(profiles)[user := p.(attempts := profiles[user].attempts)]
                && profiles[user].attempts == (
                     if a.failed < 4 then Attempts(a.failed + 1, a.level, None)
                     else Attempts(0, Min(a.level + 1, 4),
                                   Some(Min(now + [30_000, 60_000, 300_000, 900_000][Min(a.level, 3)], 0xFFFF_FFFF_FFFF_FFFF))))
                && r.value.remaining == (if a.failed < 4 then 4 - a.failed else if now < 0xFFFF_FFFF_FFFF_FFFF then 0 else 5)
      ensures r.Ok? && r.value.LockedOut? ==>
                && user in old(profiles) && old(profiles)[user].pin.Some?
                && old(profiles)[user].attempts.lockedUntil == Some(r.value.until) && now < r.value.until
      ensures r != Ok(NoPin)
      ensures r.Err? || !(r.value.Done? || r.value.Wrong?) ==> unchanged(this)
      ensures writes ==> r.Ok?
    {
      if !ValidPin(pin) {
        return Ok(BadFormat);
      }
      var profile := if user in profiles then profiles[user] else Profile(None, FRESH, 0);
      if profile.pin.Some? {
        if Locked(profile.attempts, now) {
          return Ok(LockedOut(profile.attempts.lockedUntil.value));
        }
        if current.None? || !ValidPin(current.value) {
          return Ok(BadFormat);
        }
        if current.value != profile.pin.value {
          profile := profile.(attempts := RegisterFailure(profile.attempts, now));
          var written := PersistAndReplace(profiles[user := profile], writes);
          if !written {
            return Err("not persisted");
          }
          return Ok(Wrong(Remaining(profile.attempts, now)));
        }
      }
      profile := Profile(Some(pin), FRESH, now);
      var ok := PersistAndReplace(profiles[user := profile], writes);
      return if ok then Ok(Done) else Err("not persisted");
    }

    method ClearUserPin(user: string, current: string, now: nat, writes: bool) returns (r: Result<Reply, string>)
      requires Valid()
      modifies this
      ensures Valid()
      ensures
        var reply := Serve(Lookup(old(profiles), user), ClearPin(current), now).1;
        r.Ok? <==> writes || !(reply.Wrong? || reply.Done?)
      ensures r.Err? ==> unchanged(this)
      ensures r.Ok? ==>
                var (next, reply) := Serve(Lookup(old(profiles), user), ClearPin(current), now);
                && r.value == reply && profiles == Store(old(profiles), user, next)
                && (reply.Wrong? || reply.Done? ==> disk == profiles)
      // Only a caller who gives the stored PIN, outside a lockout, removes it.
      ensures r == Ok(Done) <==>
                && writes
                && user in old(profiles) && old(profiles)[user].pin == Some(current)
                && |current| == 4 && (forall i | 0 <= i < 4 :: '0' <= current[i] <= '9')
                && (old(profiles)[user].attempts.lockedUntil.Some? ==> old(profiles)[user].attempts.lockedUntil.value <= now)
      ensures r == Ok(Done) ==> disk == profiles == old(profiles)[user := Profile(None, Attempts(0, 0, None), now)]
      // Any other PIN of four digits is counted.
      ensures r.Ok? && r.value.Wrong? <==>
                && writes
                && user in old(profiles) && old(profiles)[user].pin.Some? && old(profiles)[user].pin.value != current
                && |current| == 4 && (forall i | 0 <= i < 4 :: '0' <= current[i] <= '9')
                && (old(profiles)[user].attempts.lockedUntil.Some? ==> old(profiles)[user].attempts.lockedUntil.value <= now)
      ensures r.Ok? && r.value.Wrong? ==>
                && disk == profiles && profiles.Keys == old(profiles).Keys
                && var p, a := old(profiles)[user], old(profiles)[user].attempts;
                && profiles == old(profiles)[user := p.(attempts := profiles[user].attempts)]
                && profiles[user].attempts == (
                     if a.failed < 4 then Attempts(a.failed + 1, a.level, None)
                     else Attempts(0, Min(a.level + 1, 4),
                                   Some(Min(now + [30_000, 60_000, 300_000, 900_000][Min(a.level, 3)], 0xFFFF_FFFF_FFFF_FFFF))))
                && r.value.remaining == (if a.failed < 4 then 4 - a.failed else if now < 0xFFFF_FFFF_FFFF_FFFF then 0 else 5)
      ensures r.Ok? && r.value.LockedOut? ==>
                && user in old(profiles) && old(profiles)[user].pin.Some?
                && old(profiles)[user].attempts.lockedUntil == Some(r.value.until) && now < r.value.until
      ensures r == Ok(NoPin) <==> (user in old(profiles) ==> old(profiles)[user].pin.None?)
      ensures r.Err? || !(r.value.Done? || r.value.Wrong?) ==> unchanged(this)
      ensures writes ==> r.Ok?
    {
      if user !in profiles || profiles[user].pin.None? {
        return Ok(NoPin);
      }
      var profile := profiles[user];
      if Locked(profile.attempts, now) {
        return Ok(LockedOut(profile.attempts.lockedUntil.value));
      }
      if !ValidPin(current) {
        return Ok(BadFormat);
      }
      var right := current == profile.pin.value;
      profile := if right then Profile(None, FRESH, now)
                 else profile.(attempts := RegisterFailure(profile.attempts, now));
      var ok := PersistAndReplace(profiles[user := profile], writes);
      if !ok {
        return Err("not persisted");
      }
      return Ok(if right then Done else Wrong(Remaining(profile.attempts, now)));
    }

    method ForgetUser(user: string, writes: bool) returns (r: Result<Reply, string>)
      requires Valid()
      modifies this
      ensures Valid()
      ensures r.Ok? <==> writes || user !in old(profiles)
      ensures r.Err? ==> unchanged(this)
      ensures r.Ok? ==> r.value == Done && profiles == old(profiles) - {user}
    {
      if user in profiles {
        var ok := PersistAndReplace(profiles - {user}, writes);
        if !ok {
          return Err("not persisted");
        }
      }
      return Ok(Done);
    }
  }

  /** A restart that can read the document finds every profile as it was published, because nothing is
      published before it is written. */
  method Reopen(store: ConsoleProfiles) returns (again: ConsoleProfiles)
    requires store.Valid()
    ensures fresh(again) && again.Valid() && again.disk == store.disk
    ensures forall user | user != "" :: Lookup(again.profiles, user) == Lookup(store.profiles, user)
  {
    again := new ConsoleProfiles.Load(store.disk);
  }

  // ---- The time bound over whole runs of one user's calls ----

  // What is published of the user and what is in the document.
  datatype Copies = Copies(published: Option<Profile>, stored: Option<Profile>)

  // `written` is false when the document could not be written: the call is then not acknowledged.
  datatype Event = Called(call: Call, now: nat, written: bool) | Restart(now: nat)

  predicate Writes(reply: Reply) {
    reply.Wrong? || reply.Done?
  }

  function ReplyTo(p: Option<Profile>, e: Event): Option<Reply>
    requires e.Called?
  {
    var reply := Serve(p, e.call, e.now).1;
    if e.written || !Writes(reply) then Some(reply) else None
  }

  // A call writes its profile and then publishes it; a restart publishes what was written.
  function After(c: Copies, e: Event): Copies {
    match e
    case Called(call, now, written) =>
      var (next, reply) := Serve(c.published, call, now);
      if written && Writes(reply) then Copies(next, next) else c
    case Restart(_) => Copies(c.stored, c.stored)
  }

  function Final(p: Option<Profile>, run: seq<Event>): Copies
    decreases |run|
  {
    if run == [] then Copies(p, p) else After(Final(p, run[..|run| - 1]), run[|run| - 1])
  }

  // The times at which a wrong PIN was acknowledged.
  function WrongTimes(p: Option<Profile>, run: seq<Event>): seq<nat>
    decreases |run|
  {
    if run == [] then []
    else
      var before, e := run[..|run| - 1], run[|run| - 1];
      WrongTimes(p, before) + (if AcknowledgedWrong(Final(p, before).published, e) then [e.now] else [])
  }

  // Clock readings do not go back and fit the clock; no call succeeds. Restarts may come at any time.
  predicate Siege(p: Option<Profile>, run: seq<Event>)
    decreases |run|
  {
    run == [] ||
    var before, e := run[..|run| - 1], run[|run| - 1];
    && Siege(p, before)
    && e.now <= U64_MAX
    && (before != [] ==> before[|before| - 1].now <= e.now)
    && (e.Called? ==> !e.call.Forget? && ReplyTo(Final(p, before).published, e) != Some(Done))
  }

  // The lockouts served before the attempts of round `rounds` begin.
  function LockoutSum(rounds: nat): nat {
    if rounds == 0 then 0 else LockoutSum(rounds - 1) + Step(rounds - 1)
  }

  predicate Bounded(times: seq<nat>) {
    times != [] ==> times[|times| - 1] >= SaturatingAdd(times[0], LockoutSum((|times| - 1) / 5))
  }

  // The stored attempts are a function of the acknowledged wrong PINs so far.
  function Expected(times: seq<nat>): Attempts {
    var n := |times|;
    Attempts(n % 5, Min(n / 5, 4),
             if n > 0 && n % 5 == 0 then Some(SaturatingAdd(times[n - 1], Step(n / 5 - 1))) else None)
  }

  lemma NoFailureYet()
    ensures Bounded([]) && Expected([]) == FRESH
  {
  }

  lemma OneMoreFailure(times: seq<nat>, now: nat)
    requires Bounded(times) && now <= U64_MAX && !Locked(Expected(times), now)
    requires times != [] ==> times[|times| - 1] <= now
    ensures Bounded(times + [now])
    ensures RegisterFailure(Expected(times), now) == Expected(times + [now])
  {
    var n := |times|;
    assert (n + 1) % 5 == (if n % 5 == 4 then 0 else n % 5 + 1);
    assert (n + 1) / 5 == (if n % 5 == 4 then n / 5 + 1 else n / 5);
    if n > 0 {
      assert (n - 1) / 5 == (if n % 5 == 0 then n / 5 - 1 else n / 5);
    }
  }

  predicate AcknowledgedWrong(p: Option<Profile>, e: Event) {
    e.Called? && ReplyTo(p, e).Some? && ReplyTo(p, e).value.Wrong?
  }

  // An unsuccessful call either registers one acknowledged failure, unlocked, or changes nothing; a
  // restart changes nothing either.
  lemma UnsuccessfulCall(q: Option<Profile>, e: Event)
    requires q.Some? && q.value.pin.Some?
    requires e.Called? ==> !e.call.Forget? && ReplyTo(q, e) != Some(Done)
    ensures
      var next := if AcknowledgedWrong(q, e) then Some(q.value.(attempts := RegisterFailure(q.value.attempts, e.now))) else q;
      After(Copies(q, q), e) == Copies(next, next)
    ensures AcknowledgedWrong(q, e) ==> !Locked(q.value.attempts, e.now)
  {
  }

  lemma {:induction false} SiegeInvariant(p: Option<Profile>, run: seq<Event>)
    requires p.Some? && p.value.pin.Some? && p.value.attempts == FRESH && Siege(p, run)
    ensures
      var end := Final(p, run);
      var times := WrongTimes(p, run);
      && end.published.Some? && end.stored == end.published
      && end.published.value.pin == p.value.pin && end.published.value.attempts == Expected(times)
      && Bounded(times)
      && (times != [] ==> run != [] && times[|times| - 1] <= run[|run| - 1].now)
    decreases |run|
  {
    hide Serve, Expected, Bounded, RegisterFailure, Locked, After, ReplyTo, AcknowledgedWrong;
    if run == [] {
      NoFailureYet();
    } else {
      var before, e := run[..|run| - 1], run[|run| - 1];
      SiegeInvariant(p, before);
      var q := Final(p, before).published;
      assert Final(p, before) == Copies(q, q);
      UnsuccessfulCall(q, e);
      if AcknowledgedWrong(q, e) {
        OneMoreFailure(WrongTimes(p, before), e.now);
      } else {
        assert WrongTimes(p, run) == WrongTimes(p, before);
      }
    }
  }

  lemma {:induction false} TimesOfPrefix(p: Option<Profile>, run: seq<Event>, n: nat)
    requires 0 < n <= |WrongTimes(p, run)| && Siege(p, run)
    ensures exists k | 0 < k <= |run| :: Siege(p, run[..k]) && WrongTimes(p, run[..k]) == WrongTimes(p, run)[..n]
    decreases |run|
  {
    if n == |WrongTimes(p, run)| {
      assert run[..|run|] == run;
      assert WrongTimes(p, run[..|run|]) == WrongTimes(p, run)[..n];
    } else {
      var before := run[..|run| - 1];
      TimesOfPrefix(p, before, n);
      var k :| 0 < k <= |before| && Siege(p, before[..k]) && WrongTimes(p, before[..k]) == WrongTimes(p, before)[..n];
      assert before[..k] == run[..k];
      assert WrongTimes(p, before)[..n] == WrongTimes(p, run)[..n];
    }
  }

  /** The n-th acknowledged wrong PIN, through any mix of calls with failing writes and restarts in
      between, comes no earlier than the first plus the lockouts of every completed round of five before it; and
      the stored failure count stays below five. */
  lemma LockoutTimeBound(p: Option<Profile>, run: seq<Event>, n: nat)
    requires p.Some? && p.value.pin.Some? && p.value.attempts == FRESH && Siege(p, run)
    requires 1 <= n <= |WrongTimes(p, run)|
    ensures WrongTimes(p, run)[n - 1] >= Min(WrongTimes(p, run)[0] + LockoutSum((n - 1) / 5), 0xFFFF_FFFF_FFFF_FFFF)
    ensures Final(p, run).stored.Some? && Final(p, run).stored.value.attempts.failed < PIN_MAX_ATTEMPTS
  {
    hide Serve, Final, RegisterFailure, WrongTimes, Siege;
    SiegeInvariant(p, run);
    TimesOfPrefix(p, run, n);
    var k :| 0 < k <= |run| && Siege(p, run[..k]) && WrongTimes(p, run[..k]) == WrongTimes(p, run)[..n];
    SiegeInvariant(p, run[..k]);
  }

  /** Over a whole run, every counted failure is a call that was written and that gave, as the PIN it
      has to know, something other than the PIN published at that moment. */
  lemma {:induction false} WrongTimesAreWrongPins(p: Option<Profile>, run: seq<Event>, k: nat) returns (n: nat)
    requires k < |WrongTimes(p, run)|
    ensures n < |run| && run[n].Called? && run[n].written && run[n].now == WrongTimes(p, run)[k]
    ensures
      var q := Final(p, run[..n]).published;
      && q.Some? && q.value.pin.Some?
      && match run[n].call
         case Verify(pin) => pin != q.value.pin.value
         case SetPin(_, current) => current.Some? && current != q.value.pin
         case ClearPin(pin) => pin != q.value.pin.value
         case Forget => false
    decreases |run|
  {
    var before, e := run[..|run| - 1], run[|run| - 1];
    if k < |WrongTimes(p, before)| {
      n := WrongTimesAreWrongPins(p, before, k);
      assert before[..n] == run[..n];
    } else {
      n := |run| - 1;
      WrongAnswerMeansWrongPin(Final(p, before).published, e);
    }
  }

  lemma WrongAnswerMeansWrongPin(q: Option<Profile>, e: Event)
    requires AcknowledgedWrong(q, e)
    ensures e.written && q.Some? && q.value.pin.Some?
    ensures match e.call
            case Verify(pin) => pin != q.value.pin.value
            case SetPin(_, current) => current.Some? && current != q.value.pin
            case ClearPin(pin) => pin != q.value.pin.value
            case Forget => false
  {
  }

  /** The steps behind the bound: 30 s, 60 s, 300 s, then 900 s for every further round. */
  lemma {:induction false} LockoutSumIs(rounds: nat)
    ensures LockoutSum(rounds) ==
              match rounds
              case 0 => 0
              case 1 => 30_000
              case 2 => 90_000
              case _ => 390_000 + 900_000 * (rounds - 3)
  {
    if rounds > 3 {
      LockoutSumIs(rounds - 1);
    } else if rounds == 3 {
      assert LockoutSum(2) == 90_000;
    }
  }
}
