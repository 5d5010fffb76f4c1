/** Parallel discovery of running sessions: a fixed number of workers each scan every fourth region,
    their results are joined, sorted by region index and merged. `outcomes[i]` is whatever region `i`
    yields (a fetch, a deadline that has passed or a cancellation), so nothing is assumed of it. */
module Discovery {
  import opened Wrappers

  const DISCOVERY_CONCURRENCY: nat := 4

  datatype Session = Session(id: string, info: nat)

  datatype Failure = Cancelled | AuthenticationRequired(code: string) | DiscoveryFailed

  datatype Outcome = Found(sessions: seq<Session>) | AuthError(code: string) | OtherError

  // A region's index and what it yielded.
  datatype Visit = Visit(index: nat, outcome: Outcome)

  // ---- The sequential scan that discovery is meant to equal ----

  predicate Knows(sessions: seq<Session>, id: string) {
    exists i | 0 <= i < |sessions| :: sessions[i].id == id
  }

  // Left to right, the first session of each id.
  function FirstPerId(sessions: seq<Session>): seq<Session> {
    if sessions == [] then []
    else
      var kept, last := FirstPerId(sessions[..|sessions| - 1]), sessions[|sessions| - 1];
      if Knows(kept, last.id) then kept else kept + [last]
  }

  function AllFound(outcomes: seq<Outcome>): seq<Session> {
    if outcomes == [] then []
    else AllFound(outcomes[..|outcomes| - 1]) + (var o := outcomes[|outcomes| - 1]; if o.Found? then o.sessions else [])
  }

  predicate FirstAuthError(outcomes: seq<Outcome>, i: nat) {
    i < |outcomes| && outcomes[i].AuthError? && forall j | 0 <= j < i :: !outcomes[j].AuthError?
  }

  predicate AnyUnreadable(outcomes: seq<Outcome>) {
    exists i | 0 <= i < |outcomes| :: outcomes[i].OtherError?
  }

  ghost predicate ScanResult(outcomes: seq<Outcome>, incomplete: bool, r: Result<seq<Session>, Failure>) {
    if exists i: nat :: FirstAuthError(outcomes, i) then
      exists i: nat :: FirstAuthError(outcomes, i) && r == Err(AuthenticationRequired(outcomes[i].code))
    else
      var sessions := FirstPerId(AllFound(outcomes));
      r == if sessions == [] && (incomplete || AnyUnreadable(outcomes) || outcomes == []) then Err(DiscoveryFailed) else Ok(sessions)
  }

  // ---- The strided workers ----

  function Share(outcomes: seq<Outcome>, i: nat): seq<Visit>
    decreases |outcomes| - i
  {
    if i >= |outcomes| then [] else [Visit(i, outcomes[i])] + Share(outcomes, i + DISCOVERY_CONCURRENCY)
  }

  function Joined(outcomes: seq<Outcome>, workers: nat): seq<Visit> {
    if workers == 0 then [] else Joined(outcomes, workers - 1) + Share(outcomes, workers - 1)
  }

  function Listing(outcomes: seq<Outcome>): seq<Visit> {
    seq(|outcomes|, i requires 0 <= i < |outcomes| => Visit(i, outcomes[i]))
  }

  method ScanShare(outcomes: seq<Outcome>, worker: nat) returns (results: seq<Visit>)
    ensures results == Share(outcomes, worker)
  {
    results := [];
    var index := worker;
    while index < |outcomes|
      invariant results + Share(outcomes, index) == Share(outcomes, worker)
    {
      ghost var before, rest := results, Share(outcomes, index + DISCOVERY_CONCURRENCY);
      results := results + [Visit(index, outcomes[index])];
      assert results + rest == before + ([Visit(index, outcomes[index])] + rest);
      index := index + DISCOVERY_CONCURRENCY;
    }
  }

  predicate Genuine(outcomes: seq<Outcome>, v: Visit) {
    v.index < |outcomes| && v.outcome == outcomes[v.index]
  }

  predicate Distinct(s: seq<Visit>) {
    forall i, j | 0 <= i < j < |s| :: s[i].index != s[j].index
  }

  predicate Visited(s: seq<Visit>, index: nat) {
    exists k | 0 <= k < |s| :: s[k].index == index
  }

  // A worker's k-th visit is region i + 4k, until the list ends.
  lemma {:induction false} ShareShape(outcomes: seq<Outcome>, i: nat)
    ensures forall k | 0 <= k < |Share(outcomes, i)| ::
              Genuine(outcomes, Share(outcomes, i)[k]) && Share(outcomes, i)[k].index == i + 4 * k
    ensures i + 4 * |Share(outcomes, i)| >= |outcomes|
    decreases |outcomes| - i
  {
    if i < |outcomes| {
      ShareShape(outcomes, i + DISCOVERY_CONCURRENCY);
    }
  }

  /** The first `workers` workers visit every region of their residues exactly once. */
  lemma {:induction false} EveryRegionOnce(outcomes: seq<Outcome>, workers: nat)
    requires workers <= DISCOVERY_CONCURRENCY
    ensures Distinct(Joined(outcomes, workers))
    ensures forall k | 0 <= k < |Joined(outcomes, workers)| ::
              Genuine(outcomes, Joined(outcomes, workers)[k]) && Joined(outcomes, workers)[k].index % 4 < workers
    ensures forall i: nat | i < |outcomes| && i % 4 < workers :: Visited(Joined(outcomes, workers), i)
  {
    if workers > 0 {
      var w := workers - 1;
      EveryRegionOnce(outcomes, w);
      ShareShape(outcomes, w);
      var before, share := Joined(outcomes, w), Share(outcomes, w);
      var all := Joined(outcomes, workers);
      forall i: nat | i < |outcomes| && i % 4 < workers
        ensures Visited(all, i)
      {
        if i % 4 == w {
          assert all[|before| + (i - w) / 4].index == i;
        } else {
          assert Visited(before, i);
          var k :| 0 <= k < |before| && before[k].index == i;
          assert all[k].index == i;
        }
      }
      forall k | |before| <= k < |all|
        ensures all[k] == share[k - |before|] && all[k].index % 4 == w
      {
      }
    }
  }

  // ---- Sorting by region index ----

  predicate Ascending(s: seq<Visit>) {
    forall i, j | 0 <= i < j < |s| :: s[i].index < s[j].index
  }

  method SortByIndex(results: seq<Visit>) returns (sorted: seq<Visit>)
    requires Distinct(results)
    ensures Ascending(sorted)
    ensures forall v :: v in sorted <==> v in results
  {
    sorted := [];
    for n := 0 to |results|
      invariant Ascending(sorted)
      invariant forall v :: v in sorted <==> v in results[..n]
    {
      var k := |sorted|;
      while k > 0 && sorted[k - 1].index > results[n].index
        invariant 0 <= k <= |sorted|
        invariant forall j | k <= j < |sorted| :: sorted[j].index > results[n].index
      {
        k := k - 1;
      }
      forall j | 0 <= j < k
        ensures sorted[j].index < results[n].index
      {
        assert sorted[k - 1] in results[..n];
      }
      sorted := Insert(sorted, k, results[n]);
      assert results[..n + 1] == results[..n] + [results[n]];
    }
    assert results[..|results|] == results;
  }

  function Insert(s: seq<Visit>, k: nat, v: Visit): (r: seq<Visit>)
    requires k <= |s| && Ascending(s)
    requires forall j | 0 <= j < k :: s[j].index < v.index
    requires forall j | k <= j < |s| :: s[j].index > v.index
    ensures Ascending(r)
    ensures forall u :: u in r <==> u in s || u == v
  {
    assert s == s[..k] + s[k..];
    s[..k] + [v] + s[k..]
  }

  lemma {:induction false} IndexIsPosition(outcomes: seq<Outcome>, sorted: seq<Visit>, k: nat)
    requires Ascending(sorted) && k < |outcomes|
    requires forall i: nat | i < |outcomes| :: Visited(sorted, i)
    ensures k < |sorted| && sorted[k].index == k
  {
    assert Visited(sorted, k);
    var m :| 0 <= m < |sorted| && sorted[m].index == k;
    if k > 0 {
      IndexIsPosition(outcomes, sorted, k - 1);
    }
  }

  lemma SortedVisitsEveryRegion(outcomes: seq<Outcome>, joined: seq<Visit>, sorted: seq<Visit>)
    requires forall v :: v in sorted <==> v in joined
    requires forall k | 0 <= k < |joined| :: Genuine(outcomes, joined[k])
    requires forall i: nat | i < |outcomes| :: Visited(joined, i)
    ensures forall k | 0 <= k < |sorted| :: Genuine(outcomes, sorted[k])
    ensures forall i: nat | i < |outcomes| :: Visited(sorted, i)
  {
    forall i: nat | i < |outcomes|
      ensures Visited(sorted, i)
    {
      assert Visited(joined, i);
      var k :| 0 <= k < |joined| && joined[k].index == i;
      assert joined[k] in sorted;
    }
    forall k | 0 <= k < |sorted|
      ensures Genuine(outcomes, sorted[k])
    {
      assert sorted[k] in joined;
    }
  }

  lemma PositionsGiveListing(outcomes: seq<Outcome>, sorted: seq<Visit>)
    requires Ascending(sorted)
    requires forall k | 0 <= k < |sorted| :: Genuine(outcomes, sorted[k])
    requires forall i: nat | i < |outcomes| :: Visited(sorted, i)
    ensures sorted == Listing(outcomes)
  {
    hide Ascending, Visited;
    if outcomes != [] {
      IndexIsPosition(outcomes, sorted, |outcomes| - 1);
    }
    if sorted != [] {
      AtLeastPosition(sorted, |sorted| - 1);
    }
    forall k: nat | k < |outcomes|
      ensures sorted[k].index == k
    {
      IndexIsPosition(outcomes, sorted, k);
    }
  }

  /** Sorting the join gives the plain listing of the regions. */
  lemma SortedJoinIsListing(outcomes: seq<Outcome>, sorted: seq<Visit>)
    requires Ascending(sorted)
    requires forall v :: v in sorted <==> v in Joined(outcomes, Min(DISCOVERY_CONCURRENCY, |outcomes|))
    ensures sorted == Listing(outcomes)
  {
    var workers := Min(DISCOVERY_CONCURRENCY, |outcomes|);
    hide Joined, Ascending, Visited, Listing;
    EveryRegionOnce(outcomes, workers);
    SortedVisitsEveryRegion(outcomes, Joined(outcomes, workers), sorted);
    PositionsGiveListing(outcomes, sorted);
  }

  lemma {:induction false} AtLeastPosition(sorted: seq<Visit>, k: nat)
    requires Ascending(sorted) && k < |sorted|
    ensures sorted[k].index >= k
  {
    if k > 0 {
      AtLeastPosition(sorted, k - 1);
    }
  }

  // ---- The merge loop ----

  method MergeFound(known: seq<Session>, ghost seen: seq<Session>, found: seq<Session>) returns (sessions: seq<Session>)
    requires known == FirstPerId(seen)
    ensures sessions == FirstPerId(seen + found)
  {
    sessions := known;
    assert seen + found[..0] == seen;
    for n := 0 to |found|
      invariant sessions == FirstPerId(seen + found[..n])
    {
      assert (seen + found[..n + 1])[..|seen| + n] == seen + found[..n];
      if !Knows(sessions, found[n].id) {
        sessions := sessions + [found[n]];
      }
    }
    assert found[..|found|] == found;
  }

  lemma UnreadableSnoc(outcomes: seq<Outcome>, n: nat)
    requires n < |outcomes|
    ensures AnyUnreadable(outcomes[..n + 1]) <==> AnyUnreadable(outcomes[..n]) || outcomes[n].OtherError?
  {
    var shorter, longer := outcomes[..n], outcomes[..n + 1];
    forall i | 0 <= i < n
      ensures longer[i] == shorter[i]
    {
    }
    assert longer[n] == outcomes[n];
  }

  method MergeResults(ghost outcomes: seq<Outcome>, results: seq<Visit>, incomplete: bool)
    returns (r: Result<seq<Session>, Failure>)
    requires results == Listing(outcomes)
    ensures ScanResult(outcomes, incomplete, r)
  {
    hide AnyUnreadable;
    var sessions: seq<Session> := [];
    var unread := incomplete;
    assert outcomes[..0] == [];
    assert !AnyUnreadable(outcomes[..0]) by {
      NoneUnreadable();
    }
    for n := 0 to |results|
      invariant sessions == FirstPerId(AllFound(outcomes[..n]))
      invariant unread <==> incomplete || AnyUnreadable(outcomes[..n])
      invariant forall i | 0 <= i < n :: !outcomes[i].AuthError?
    {
      assert outcomes[..n + 1][..n] == outcomes[..n];
      UnreadableSnoc(outcomes, n);
      match results[n].outcome
      case Found(found) =>
        sessions := MergeFound(sessions, AllFound(outcomes[..n]), found);
      case AuthError(code) =>
        assert FirstAuthError(outcomes, n);
        return Err(AuthenticationRequired(code));
      case OtherError =>
        assert AllFound(outcomes[..n + 1]) == AllFound(outcomes[..n]);
        unread := true;
    }
    assert outcomes[..|results|] == outcomes;
    if sessions == [] && (unread || results == []) {
      return Err(DiscoveryFailed);
    }
    return Ok(sessions);
  }

  lemma NoneUnreadable()
    ensures !AnyUnreadable([])
  {
  }

  // ---- What the scan's result means ----

  predicate FirstOfItsId(sessions: seq<Session>, i: nat) {
    i < |sessions| && forall j | 0 <= j < i :: sessions[j].id != sessions[i].id
  }

  lemma KnowsSnoc(sessions: seq<Session>, last: Session, id: string)
    ensures Knows(sessions + [last], id) <==> Knows(sessions, id) || last.id == id
  {
    var all := sessions + [last];
    assert all[|sessions|] == last;
    if Knows(sessions, id) {
      var i :| 0 <= i < |sessions| && sessions[i].id == id;
      assert all[i].id == id;
    }
  }

  lemma {:induction false} KeepsEveryId(sessions: seq<Session>, id: string)
    ensures Knows(FirstPerId(sessions), id) <==> Knows(sessions, id)
  {
    if sessions != [] {
      var before, last := sessions[..|sessions| - 1], sessions[|sessions| - 1];
      KeepsEveryId(before, id);
      assert sessions == before + [last];
      KnowsSnoc(before, last, id);
      KnowsSnoc(FirstPerId(before), last, id);
    }
  }

  lemma FirstSnoc(before: seq<Session>, last: Session)
    ensures forall i: nat | i < |before| :: FirstOfItsId(before + [last], i) <==> FirstOfItsId(before, i)
    ensures FirstOfItsId(before + [last], |before|) <==> !Knows(before, last.id)
    ensures forall i: nat :: FirstOfItsId(before + [last], i) ==> i <= |before|
    ensures forall i: nat :: FirstOfItsId(before, i) ==> i < |before|
  {
    var all := before + [last];
    forall i: nat | i < |before|
      ensures all[i] == before[i]
    {
    }
  }

  /** Keeping the first per id: the kept sessions are exactly the first occurrences, in order. */
  lemma {:induction false} FirstPerIdKeepsFirsts(sessions: seq<Session>) returns (at: seq<nat>)
    ensures |at| == |FirstPerId(sessions)|
    ensures forall k | 0 <= k < |at| :: at[k] < |sessions| && FirstPerId(sessions)[k] == sessions[at[k]]
    ensures forall k, m | 0 <= k < m < |at| :: at[k] < at[m]
    ensures forall i: nat :: i in at <==> FirstOfItsId(sessions, i)
  {
    if sessions == [] {
      at := [];
    } else {
      var n := |sessions| - 1;
      var before, last := sessions[..n], sessions[n];
      at := FirstPerIdKeepsFirsts(before);
      KeepsEveryId(before, last.id);
      FirstSnoc(before, last);
      assert sessions == before + [last];
      hide FirstOfItsId;
      if !Knows(FirstPerId(before), last.id) {
        at := at + [n];
      }
    }
  }

  lemma {:induction false} NothingFound(outcomes: seq<Outcome>)
    ensures AllFound(outcomes) == [] <==> forall i | 0 <= i < |outcomes| :: outcomes[i].Found? ==> outcomes[i].sessions == []
    decreases |outcomes|
  {
    if outcomes != [] {
      NothingFound(outcomes[..|outcomes| - 1]);
    }
  }

  /** An empty success means, and only means, that the region list was complete and not empty and
      every region answered, with no session. */
  lemma EmptySuccess(outcomes: seq<Outcome>, incomplete: bool)
    ensures ScanResult(outcomes, incomplete, Ok([])) <==>
              !incomplete && outcomes != [] && forall i | 0 <= i < |outcomes| :: outcomes[i] == Found([])
  {
    NothingFound(outcomes);
    var at := FirstPerIdKeepsFirsts(AllFound(outcomes));
    var all := AllFound(outcomes);
    if all != [] {
      assert FirstOfItsId(all, 0);
      assert FirstPerId(all) != [];
    }
    if ScanResult(outcomes, incomplete, Ok([])) {
      forall i | 0 <= i < |outcomes|
        ensures outcomes[i] == Found([])
      {
        if outcomes[i].AuthError? {
          var k := EarliestAuthError(outcomes, i);
        }
      }
    }
  }

  lemma {:induction false} EarliestAuthError(outcomes: seq<Outcome>, i: nat) returns (k: nat)
    requires i < |outcomes| && outcomes[i].AuthError?
    ensures FirstAuthError(outcomes, k)
  {
    if j :| 0 <= j < i && outcomes[j].AuthError? {
      k := EarliestAuthError(outcomes, j);
    } else {
      k := i;
    }
  }

  // ---- The result in terms of the regions' answers ----

  /** `at[m]` is the region, and the position in its answer, from which the m-th session was taken: no
      earlier place holds a session of that id, and the places ascend. */
  ghost predicate FirstPlaces(outcomes: seq<Outcome>, sessions: seq<Session>, at: seq<(nat, nat)>) {
    && |at| == |sessions|
    && (forall m | 0 <= m < |at| ::
          && at[m].0 < |outcomes| && outcomes[at[m].0].Found? && at[m].1 < |outcomes[at[m].0].sessions|
          && sessions[m] == outcomes[at[m].0].sessions[at[m].1])
    && (forall m, i, k | 0 <= m < |at| && 0 <= i <= at[m].0 && outcomes[i].Found? && 0 <= k < |outcomes[i].sessions| ::
          i < at[m].0 || k < at[m].1 ==> outcomes[i].sessions[k].id != sessions[m].id)
    && (forall m, n | 0 <= m < n < |at| :: at[m].0 < at[n].0 || (at[m].0 == at[n].0 && at[m].1 < at[n].1))
  }

  // The places behind a list of sessions.
  ghost predicate PlacesOf(outcomes: seq<Outcome>, sessions: seq<Session>, ps: seq<(nat, nat)>) {
    && |ps| == |sessions|
    && (forall j | 0 <= j < |ps| ::
          && ps[j].0 < |outcomes| && outcomes[ps[j].0].Found? && ps[j].1 < |outcomes[ps[j].0].sessions|
          && sessions[j] == outcomes[ps[j].0].sessions[ps[j].1])
    && (forall j, m | 0 <= j < m < |ps| :: ps[j].0 < ps[m].0 || (ps[j].0 == ps[m].0 && ps[j].1 < ps[m].1))
  }

  predicate Listed(ps: seq<(nat, nat)>, i: nat, k: nat) {
    exists j | 0 <= j < |ps| :: ps[j] == (i, k)
  }

  // The places of one answer.
  ghost function Answered(outcomes: seq<Outcome>, n: nat): seq<(nat, nat)>
    requires n < |outcomes|
  {
    if outcomes[n].Found? then seq(|outcomes[n].sessions|, k => (n, k)) else []
  }

  // The places behind the concatenated answers.
  ghost function Places(outcomes: seq<Outcome>): seq<(nat, nat)>
    decreases |outcomes|
  {
    if outcomes == [] then []
    else var n := |outcomes| - 1; Places(outcomes[..n]) + Answered(outcomes, n)
  }

  lemma AddPlaces(outcomes: seq<Outcome>, n: nat, sessions: seq<Session>, ps: seq<(nat, nat)>)
    requires n < |outcomes| && PlacesOf(outcomes[..n], sessions, ps)
    ensures PlacesOf(outcomes, sessions + (if outcomes[n].Found? then outcomes[n].sessions else []), ps + Answered(outcomes, n))
  {
    var all := ps + Answered(outcomes, n);
    forall j | 0 <= j < |all|
      ensures if j < |ps| then all[j] == ps[j] && all[j].0 < n && outcomes[..n][all[j].0] == outcomes[all[j].0]
              else outcomes[n].Found? && all[j] == (n, j - |ps|)
    {
    }
  }

  lemma {:induction false} PlacesOfAll(outcomes: seq<Outcome>)
    ensures PlacesOf(outcomes, AllFound(outcomes), Places(outcomes))
    decreases |outcomes|
  {
    hide PlacesOf, Answered;
    if outcomes == [] {
      NoPlaces();
    } else {
      var n := |outcomes| - 1;
      PlacesOfAll(outcomes[..n]);
      AddPlaces(outcomes, n, AllFound(outcomes[..n]), Places(outcomes[..n]));
    }
  }

  lemma NoPlaces()
    ensures PlacesOf([], [], [])
  {
  }

  lemma {:induction false} AllPlacesListed(outcomes: seq<Outcome>, i: nat, k: nat)
    requires i < |outcomes| && outcomes[i].Found? && k < |outcomes[i].sessions|
    ensures Listed(Places(outcomes), i, k)
    decreases |outcomes|
  {
    hide Listed;
    var n := |outcomes| - 1;
    var before, added := Places(outcomes[..n]), Answered(outcomes, n);
    if i == n {
      ListedIn(before, added, k, n, k);
    } else {
      AllPlacesListed(outcomes[..n], i, k);
      ListedBefore(before, added, i, k);
    }
  }

  lemma ListedIn(before: seq<(nat, nat)>, added: seq<(nat, nat)>, j: nat, i: nat, k: nat)
    requires j < |added| && added[j] == (i, k)
    ensures Listed(before + added, i, k)
  {
    assert (before + added)[|before| + j] == (i, k);
  }

  lemma ListedBefore(before: seq<(nat, nat)>, added: seq<(nat, nat)>, i: nat, k: nat)
    requires Listed(before, i, k)
    ensures Listed(before + added, i, k)
  {
    var j :| 0 <= j < |before| && before[j] == (i, k);
    assert (before + added)[j] == (i, k);
  }

  lemma ScanTakesFirstPlaces(outcomes: seq<Outcome>, kept: seq<Session>) returns (at: seq<(nat, nat)>)
    requires kept == FirstPerId(AllFound(outcomes))
    ensures |at| == |kept| && FirstPlaces(outcomes, kept, at)
  {
    hide AllFound, FirstPerId, Places;
    var all := AllFound(outcomes);
    var ps := Places(outcomes);
    PlacesOfAll(outcomes);
    var firsts := FirstPerIdKeepsFirsts(all);
    at := seq(|firsts|, m requires 0 <= m < |firsts| => ps[firsts[m]]);
    forall m, i, k | 0 <= m < |at| && 0 <= i <= at[m].0 && outcomes[i].Found? && 0 <= k < |outcomes[i].sessions| &&
                     (i < at[m].0 || k < at[m].1)
      ensures outcomes[i].sessions[k].id != kept[m].id
    {
      AllPlacesListed(outcomes, i, k);
      var j :| 0 <= j < |ps| && ps[j] == (i, k);
      assert firsts[m] in firsts;
      assert FirstOfItsId(all, firsts[m]);
      assert j < firsts[m];
      assert all[j] == outcomes[i].sessions[k];
    }
  }

  lemma ScanKnows(outcomes: seq<Outcome>, kept: seq<Session>, i: nat, k: nat)
    requires kept == FirstPerId(AllFound(outcomes))
    requires i < |outcomes| && outcomes[i].Found? && k < |outcomes[i].sessions|
    ensures Knows(kept, outcomes[i].sessions[k].id)
  {
    hide AllFound, FirstPerId, Places;
    var all := AllFound(outcomes);
    var ps := Places(outcomes);
    PlacesOfAll(outcomes);
    AllPlacesListed(outcomes, i, k);
    var j :| 0 <= j < |ps| && ps[j] == (i, k);
    assert all[j] == outcomes[i].sessions[k];
    KeepsEveryId(all, all[j].id);
  }

  lemma ScanSucceeds(outcomes: seq<Outcome>, incomplete: bool, sessions: seq<Session>)
    requires ScanResult(outcomes, incomplete, Ok(sessions))
    ensures sessions == FirstPerId(AllFound(outcomes))
    ensures forall i | 0 <= i < |outcomes| :: !outcomes[i].AuthError?
    ensures sessions == [] ==> !incomplete && outcomes != [] && forall i | 0 <= i < |outcomes| :: outcomes[i].Found?
  {
    forall i | 0 <= i < |outcomes|
      ensures !outcomes[i].AuthError?
    {
      if outcomes[i].AuthError? {
        var k := EarliestAuthError(outcomes, i);
      }
    }
  }

  lemma ScanFails(outcomes: seq<Outcome>, incomplete: bool, failure: Failure)
    requires ScanResult(outcomes, incomplete, Err(failure))
    ensures failure.AuthenticationRequired? ==>
              exists i | 0 <= i < |outcomes| :: outcomes[i] == AuthError(failure.code) && forall j | 0 <= j < i :: !outcomes[j].AuthError?
    ensures failure.DiscoveryFailed? ==>
              && (incomplete || outcomes == [] || exists i | 0 <= i < |outcomes| :: outcomes[i].OtherError?)
              && (forall i | 0 <= i < |outcomes| :: !outcomes[i].AuthError? && (outcomes[i].Found? ==> outcomes[i].sessions == []))
    ensures !failure.Cancelled?
  {
    if failure.DiscoveryFailed? {
      var kept := FirstPerId(AllFound(outcomes));
      forall i | 0 <= i < |outcomes|
        ensures !outcomes[i].AuthError?
      {
        if outcomes[i].AuthError? {
          var k := EarliestAuthError(outcomes, i);
        }
      }
      forall i | 0 <= i < |outcomes| && outcomes[i].Found?
        ensures outcomes[i].sessions == []
      {
        if outcomes[i].sessions != [] {
          ScanKnows(outcomes, kept, i, 0);
        }
      }
    }
  }

  /** `discover_sessions`: for any region list and any per-region outcome, the parallel scan yields
      exactly what a left-to-right scan of the regions yields. A success holds the first session of
      every id any region answered, from the first place that holds it and in the order of those
      places; it is empty only when a complete list of regions answered nothing. */
  method DiscoverSessions(outcomes: seq<Outcome>, incomplete: bool, cancelled: bool)
    returns (r: Result<seq<Session>, Failure>)
    ensures cancelled <==> r == Err(Cancelled)
    ensures !cancelled ==> ScanResult(outcomes, incomplete, r)
    ensures r.Ok? ==> exists at :: FirstPlaces(outcomes, r.value, at)
    ensures r.Ok? ==>
              forall i, k | 0 <= i < |outcomes| && outcomes[i].Found? && 0 <= k < |outcomes[i].sessions| ::
                Knows(r.value, outcomes[i].sessions[k].id)
    ensures r.Ok? ==> forall i | 0 <= i < |outcomes| :: !outcomes[i].AuthError?
    ensures r.Ok? && r.value == [] ==> !incomplete && outcomes != [] && forall i | 0 <= i < |outcomes| :: outcomes[i].Found?
    ensures r.Err? && r.error.AuthenticationRequired? ==>
              exists i | 0 <= i < |outcomes| :: outcomes[i] == AuthError(r.error.code) && forall j | 0 <= j < i :: !outcomes[j].AuthError?
    ensures r == Err(DiscoveryFailed) ==>
              && (incomplete || outcomes == [] || exists i | 0 <= i < |outcomes| :: outcomes[i].OtherError?)
              && (forall i | 0 <= i < |outcomes| :: !outcomes[i].AuthError? && (outcomes[i].Found? ==> outcomes[i].sessions == []))
  {
    hide ScanResult, AllFound, FirstPerId, FirstPlaces;
    var joined: seq<Visit> := [];
    for worker := 0 to Min(DISCOVERY_CONCURRENCY, |outcomes|)
      invariant joined == Joined(outcomes, worker)
    {
      var share := ScanShare(outcomes, worker);
      joined := joined + share;
    }
    if cancelled {
      return Err(Cancelled);
    }
    EveryRegionOnce(outcomes, Min(DISCOVERY_CONCURRENCY, |outcomes|));
    var results := SortByIndex(joined);
    SortedJoinIsListing(outcomes, results);
    r := MergeResults(outcomes, results, incomplete);
    if r.Ok? {
      ScanSucceeds(outcomes, incomplete, r.value);
      ghost var at := ScanTakesFirstPlaces(outcomes, r.value);
      forall i, k | 0 <= i < |outcomes| && outcomes[i].Found? && 0 <= k < |outcomes[i].sessions|
        ensures Knows(r.value, outcomes[i].sessions[k].id)
      {
        ScanKnows(outcomes, r.value, i, k);
      }
    } else {
      ScanFails(outcomes, incomplete, r.error);
    }
  }
}
