/** The artwork cache's de-duplicated download queue: callers insert a key into `queued` and then
    send its job, workers receive, download, remove the key and emit an event. Insert and send are
    two steps, so is removing and emitting, and any callers and workers interleave. */
module DownloadQueue {
  type Key = nat
  type Actor = nat

  /** `sending` is the callers between their insert and their send, `downloading` the workers before
      their removal step and `emitting` those after it; every other worker is idle. `sent` and `received` are
      the keys the channel has taken and handed out, in order. */
  datatype State = State(
    queued: set<Key>,
    sending: map<Actor, Key>,
    channel: seq<Key>,
    downloading: map<Actor, Key>,
    emitting: map<Actor, Key>,
    accepted: nat,
    events: nat,
    sent: seq<Key>,
    received: seq<Key>)

  const INITIAL := State({}, map[], [], map[], map[], 0, 0, [], [])

  datatype Label =
    | Insert(c: Actor, key: Key)
    | TrySend(c: Actor, taken: bool)
    | Receive(w: Actor)
    | RemoveQueued(w: Actor)
    | Emit(w: Actor)

  predicate Can(s: State, l: Label) {
    match l
    case Insert(c, _) => c !in s.sending
    case TrySend(c, _) => c in s.sending
    case Receive(w) => w !in s.downloading && w !in s.emitting && s.channel != []
    case RemoveQueued(w) => w in s.downloading && w !in s.emitting
    case Emit(w) => w in s.emitting
  }

  function Apply(s: State, l: Label): State
    requires Can(s, l)
  {
    match l
    case Insert(c, key) =>
      // A key already queued is answered "pending" without a job.
      if key in s.queued then s else s.(queued := s.queued + {key}, sending := s.sending[c := key])
    case TrySend(c, taken) =>
      var t := s.(sending := s.sending - {c});
      if taken then t.(channel := s.channel + [s.sending[c]], accepted := s.accepted + 1, sent := s.sent + [s.sending[c]])
      else t.(queued := s.queued - {s.sending[c]})
    case Receive(w) =>
      var key := s.channel[0];
      s.(channel := s.channel[1..], downloading := s.downloading[w := key], received := s.received + [key])
    case RemoveQueued(w) =>
      var key := s.downloading[w];
      s.(queued := s.queued - {key}, downloading := s.downloading - {w}, emitting := s.emitting[w := key])
    case Emit(w) => s.(emitting := s.emitting - {w}, events := s.events + 1)
  }

  predicate IsRun(s: State, run: seq<Label>)
    decreases |run|
  {
    run == [] || (Can(s, run[0]) && IsRun(Apply(s, run[0]), run[1..]))
  }

  function End(s: State, run: seq<Label>): State
    requires IsRun(s, run)
    decreases |run|
  {
    if run == [] then s else End(Apply(s, run[0]), run[1..])
  }

  // ---- The live jobs ----

  ghost function Held(m: map<Actor, Key>): multiset<Key> {
    if m == map[] then multiset{}
    else
      var a :| a in m;
      Held(m - {a}) + multiset{m[a]}
  }

  lemma {:induction false} TakeOut(m: map<Actor, Key>, a: Actor)
    requires a in m
    ensures Held(m) == Held(m - {a}) + multiset{m[a]}
    decreases |m|
  {
    var b :| b in m && Held(m) == Held(m - {b}) + multiset{m[b]};
    if a != b {
      var rest := m - {a} - {b};
      assert m - {b} - {a} == rest;
      TakeOut(m - {b}, a);
      TakeOut(m - {a}, b);
      hide Held;
      assert Held(m) == Held(rest) + multiset{m[a]} + multiset{m[b]};
    }
  }

  lemma PutIn(m: map<Actor, Key>, a: Actor, key: Key)
    requires a !in m
    ensures Held(m[a := key]) == Held(m) + multiset{key}
  {
    TakeOut(m[a := key], a);
    assert m[a := key] - {a} == m;
  }

  // Jobs being sent, in the channel, or at a worker before its removal step.
  ghost function Live(s: State): multiset<Key> {
    Held(s.sending) + multiset(s.channel) + Held(s.downloading)
  }

  ghost predicate Inv(s: State) {
    && Live(s) == multiset(s.queued)
    && s.accepted == s.events + |s.channel| + |s.downloading| + |s.emitting|
    && s.downloading.Keys !! s.emitting.Keys
    && s.sent == s.received + s.channel && s.accepted == |s.sent|
  }

  // Taking a key out of the set of queued keys takes out its one live job.
  lemma Dequeue(queued: set<Key>, key: Key, live: multiset<Key>)
    requires live + multiset{key} == multiset(queued)
    ensures live == multiset(queued - {key})
  {
    assert key in live + multiset{key};
    assert multiset(queued - {key}) == multiset(queued) - multiset{key};
  }

  lemma InsertKeepsLive(s: State, c: Actor, key: Key)
    requires Inv(s) && Can(s, Insert(c, key))
    ensures var t := Apply(s, Insert(c, key)); Live(t) == multiset(t.queued)
  {
    hide Held;
    if key !in s.queued {
      PutIn(s.sending, c, key);
      assert multiset(s.queued + {key}) == multiset(s.queued) + multiset{key};
    }
  }

  lemma TrySendKeepsLive(s: State, c: Actor, taken: bool)
    requires Inv(s) && Can(s, TrySend(c, taken))
    ensures var t := Apply(s, TrySend(c, taken)); Live(t) == multiset(t.queued)
  {
    hide Held;
    var t := Apply(s, TrySend(c, taken));
    TakeOut(s.sending, c);
    if !taken {
      assert Live(t) + multiset{s.sending[c]} == Live(s);
      Dequeue(s.queued, s.sending[c], Live(t));
    }
  }

  lemma WorkerKeepsLive(s: State, l: Label)
    requires Inv(s) && Can(s, l) && !l.Insert? && !l.TrySend?
    ensures Live(Apply(s, l)) == multiset(Apply(s, l).queued)
  {
    hide Held;
    if l.Receive? {
      assert s.channel == [s.channel[0]] + s.channel[1..];
      PutIn(s.downloading, l.w, s.channel[0]);
    } else if l.RemoveQueued? {
      TakeOut(s.downloading, l.w);
      Dequeue(s.queued, s.downloading[l.w], Live(Apply(s, l)));
    }
  }

  lemma StepKeepsDisjoint(s: State, l: Label)
    requires Inv(s) && Can(s, l)
    ensures Apply(s, l).downloading.Keys !! Apply(s, l).emitting.Keys
  {
    hide Held, Live;
  }

  lemma FirstOut(received: seq<Key>, channel: seq<Key>)
    requires channel != []
    ensures received + channel == received + [channel[0]] + channel[1..]
  {
  }

  lemma LastIn(received: seq<Key>, channel: seq<Key>, key: Key)
    ensures received + channel + [key] == received + (channel + [key])
  {
  }

  lemma StepKeepsOrder(s: State, l: Label)
    requires s.sent == s.received + s.channel && s.accepted == |s.sent| && Can(s, l)
    ensures var t := Apply(s, l); t.sent == t.received + t.channel && t.accepted == |t.sent|
  {
    if l.Receive? {
      FirstOut(s.received, s.channel);
    } else if l.TrySend? {
      LastIn(s.received, s.channel, s.sending[l.c]);
    }
  }

  lemma StepKeepsBalance(s: State, l: Label)
    requires Inv(s) && Can(s, l)
    ensures var t := Apply(s, l); t.accepted == t.events + |t.channel| + |t.downloading| + |t.emitting|
  {
    hide Held, Live;
    var t := Apply(s, l);
    if l.RemoveQueued? {
      assert t.downloading.Keys == s.downloading.Keys - {l.w};
    } else if l.Emit? {
      assert t.emitting.Keys == s.emitting.Keys - {l.w};
    }
  }

  lemma {:induction false} RunKeepsInv(s: State, run: seq<Label>)
    requires Inv(s) && IsRun(s, run)
    ensures Inv(End(s, run))
    decreases |run|
  {
    if run != [] {
      match run[0] {
        case Insert(c, key) => InsertKeepsLive(s, c, key);
        case TrySend(c, taken) => TrySendKeepsLive(s, c, taken);
        case _ => WorkerKeepsLive(s, run[0]);
      }
      StepKeepsDisjoint(s, run[0]);
      StepKeepsOrder(s, run[0]);
      StepKeepsBalance(s, run[0]);
      RunKeepsInv(Apply(s, run[0]), run[1..]);
    }
  }

  // ---- Main results ----

  /** In every interleaving `queued` is exactly the keys with a live job, and each has exactly one;
      jobs accepted equal events emitted plus jobs still in flight; and jobs are handed out in the order
      they were taken. */
  lemma QueueConservation(run: seq<Label>)
    requires IsRun(INITIAL, run)
    ensures
      var s := End(INITIAL, run);
      && Held(s.sending) + multiset(s.channel) + Held(s.downloading) == multiset(s.queued)
      && s.accepted == s.events + |s.channel| + |s.downloading| + |s.emitting|
      && s.sent == s.received + s.channel && s.accepted == |s.sent|
  {
    RunKeepsInv(INITIAL, run);
  }

  lemma AtMostOne(queued: set<Key>, x: multiset<Key>, y: multiset<Key>, z: multiset<Key>, key: Key)
    requires x + y + z == multiset(queued)
    ensures y[key] + z[key] <= 1
  {
    assert (x + y + z)[key] == multiset(queued)[key];
  }

  lemma SharedKeyCounts(m: map<Actor, Key>, w: Actor, v: Actor)
    requires w in m && v in m && w != v && m[w] == m[v]
    ensures Held(m)[m[w]] >= 2
  {
    hide *;
    TakeOut(m, w);
    TakeOut(m - {w}, v);
  }

  lemma InChannel(channel: seq<Key>, key: Key)
    requires key in channel
    ensures multiset(channel)[key] >= 1
  {
    var i :| 0 <= i < |channel| && channel[i] == key;
    assert channel == channel[..i] + [key] + channel[i + 1..];
  }

  lemma DownloadsAreLive(s: State, w: Actor)
    requires Held(s.sending) + multiset(s.channel) + Held(s.downloading) == multiset(s.queued)
    requires w in s.downloading
    ensures s.downloading[w] !in s.channel
    ensures forall v | v in s.downloading && v != w :: s.downloading[v] != s.downloading[w]
  {
    hide *;
    var key := s.downloading[w];
    AtMostOne(s.queued, Held(s.sending), multiset(s.channel), Held(s.downloading), key);
    TakeOut(s.downloading, w);
    if key in s.channel {
      InChannel(s.channel, key);
    }
    forall v | v in s.downloading && v != w
      ensures s.downloading[v] != key
    {
      if key == s.downloading[v] {
        SharedKeyCounts(s.downloading, w, v);
      }
    }
  }

  /** A key that is being downloaded is downloaded by no other worker and does not wait in the
      channel. */
  lemma NoDoubleDownload(run: seq<Label>, s: State, w: Actor)
    requires IsRun(INITIAL, run) && End(INITIAL, run) == s && w in s.downloading
    ensures forall v | v in s.downloading && v != w :: s.downloading[v] != s.downloading[w]
    ensures s.downloading[w] !in s.channel
  {
    QueueConservation(run);
    DownloadsAreLive(s, w);
  }

  /** The machine does real work: one key goes from its insert to its event. */
  lemma OneDownload(c: Actor, w: Actor, key: Key)
    ensures
      var run := [Insert(c, key), TrySend(c, true), Receive(w), RemoveQueued(w), Emit(w)];
      IsRun(INITIAL, run) && End(INITIAL, run) == State({}, map[], [], map[], map[], 1, 1, [key], [key])
  {
    var s1 := State({key}, map[c := key], [], map[], map[], 0, 0, [], []);
    var s2 := State({key}, map[], [key], map[], map[], 1, 0, [key], []);
    var s3 := State({key}, map[], [], map[w := key], map[], 1, 0, [key], [key]);
    var s4 := State({}, map[], [], map[], map[w := key], 1, 0, [key], [key]);
    assert Apply(INITIAL, Insert(c, key)) == s1;
    assert Apply(s1, TrySend(c, true)) == s2;
    assert Apply(s2, Receive(w)) == s3;
    assert Apply(s3, RemoveQueued(w)) == s4;
    var s5 := State({}, map[], [], map[], map[], 1, 1, [key], [key]);
    assert Apply(s4, Emit(w)) == s5;
    assert [Emit(w)][1..] == [] && IsRun(s5, []) && End(s5, []) == s5;
    assert IsRun(s4, [Emit(w)]) && End(s4, [Emit(w)]) == s5;
    assert IsRun(s3, [RemoveQueued(w), Emit(w)]) && IsRun(s2, [Receive(w), RemoveQueued(w), Emit(w)]);
    assert End(s3, [RemoveQueued(w), Emit(w)]) == End(s4, [Emit(w)]);
    assert End(s2, [Receive(w), RemoveQueued(w), Emit(w)]) == End(s3, [RemoveQueued(w), Emit(w)]);
  }
}
