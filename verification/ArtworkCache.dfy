/** The on-disk artwork cache: an index with byte and entry limits, least-recently-used eviction,
    start-up reconciliation with the directory, look-up and storing of downloads. The directory is
    touched by the cache alone; any file operation may fail. */
module ArtworkCache {
  import opened Wrappers
  import opened ArtworkNames

  datatype Entry = Entry(extension: string, size: nat, lastAccess: nat)

  type Index = map<string, Entry>

  // ---- Totals ----

  ghost function TotalBytes(index: Index): nat {
    if index == map[] then 0
    else
      var k :| k in index;
      index[k].size + TotalBytes(index - {k})
  }

  // The total does not depend on which entry is taken out first.
  lemma {:induction false} TakeOut(index: Index, key: string)
    requires key in index
    ensures TotalBytes(index) == index[key].size + TotalBytes(index - {key})
    decreases |index|
  {
    var k :| k in index && TotalBytes(index) == index[k].size + TotalBytes(index - {k});
    if k != key {
      TakeOut(index - {k}, key);
      TakeOut(index - {key}, k);
      assert index - {k} - {key} == index - {key} - {k};
    }
  }

  // ---- Least recently used first ----

  predicate LexLess(a: string, b: string) {
    b != [] && (a == [] || a[0] < b[0] || (a[0] == b[0] && LexLess(a[1..], b[1..])))
  }

  lemma {:induction false} LexTotal(a: string, b: string)
    ensures a == b || LexLess(a, b) || LexLess(b, a)
  {
    if a != [] && b != [] && a[0] == b[0] {
      LexTotal(a[1..], b[1..]);
      assert a[1..] == b[1..] ==> a == [a[0]] + a[1..] == b;
    }
  }

  lemma {:induction false} LexTransitive(a: string, b: string, c: string)
    requires LexLess(a, b) && LexLess(b, c)
    ensures LexLess(a, c)
  {
    if a != [] && a[0] == b[0] == c[0] {
      LexTransitive(a[1..], b[1..], c[1..]);
    }
  }

  /** The order of keys by position: they agree up to `n`, and there the first one ends or has the
      smaller character. */
  lemma {:induction false} LexLessAt(a: string, b: string) returns (n: nat)
    requires LexLess(a, b)
    ensures n <= |a| && n < |b| && a[..n] == b[..n] && (n == |a| || a[n] < b[n])
  {
    if a == [] || a[0] < b[0] {
      n := 0;
    } else {
      var m := LexLessAt(a[1..], b[1..]);
      n := m + 1;
      assert a[..n] == [a[0]] + a[1..][..m] == b[..n];
    }
  }

  predicate Older(index: Index, a: string, b: string)
    requires a in index && b in index
  {
    index[a].lastAccess < index[b].lastAccess || (index[a].lastAccess == index[b].lastAccess && LexLess(a, b))
  }

  lemma OlderTransitive(index: Index, a: string, b: string, c: string)
    requires a in index && b in index && c in index && Older(index, a, b) && Older(index, b, c)
    ensures Older(index, a, c)
  {
    hide LexLess;
    if index[a].lastAccess == index[b].lastAccess == index[c].lastAccess {
      LexTransitive(a, b, c);
    }
  }

  lemma {:induction false} OldestExists(index: Index, keys: set<string>) returns (oldest: string)
    requires keys != {} && keys <= index.Keys
    ensures oldest in keys && forall k | k in keys && k != oldest :: Older(index, oldest, k)
    decreases |keys|
  {
    hide LexLess;
    var k :| k in keys;
    if keys == {k} {
      oldest := k;
    } else {
      oldest := OldestExists(index, keys - {k});
      LexTotal(k, oldest);
      if Older(index, k, oldest) {
        forall j | j in keys && j != k
          ensures Older(index, k, j)
        {
          if j != oldest {
            OlderTransitive(index, k, oldest, j);
          }
        }
        oldest := k;
      }
    }
  }

  predicate LruOrder(index: Index, order: seq<string>) {
    && (forall i | 0 <= i < |order| :: order[i] in index)
    && (forall k | k in index :: k in order)
    && (forall i, j | 0 <= i < j < |order| :: order[i] != order[j] && Older(index, order[i], order[j]))
  }

  lemma OlderMeans(index: Index, a: string, b: string)
    requires a in index && b in index && Older(index, a, b)
    ensures index[a].lastAccess <= index[b].lastAccess
    ensures index[a].lastAccess == index[b].lastAccess ==>
              exists n | 0 <= n <= |a| && n < |b| :: a[..n] == b[..n] && (n == |a| || a[n] < b[n])
  {
    if index[a].lastAccess == index[b].lastAccess {
      var n := LexLessAt(a, b);
    }
  }

  /** Access times never fall; where they are equal the keys ascend: they agree up to some place, and
      there the first one ends or has the smaller character. */
  ghost predicate ByAccess(index: Index, order: seq<string>) {
    && (forall i | 0 <= i < |order| :: order[i] in index)
    && (forall i, j | 0 <= i < j < |order| :: index[order[i]].lastAccess <= index[order[j]].lastAccess)
    && (forall i, j | 0 <= i < j < |order| && index[order[i]].lastAccess == index[order[j]].lastAccess ::
          exists n | 0 <= n <= |order[i]| && n < |order[j]| ::
            order[i][..n] == order[j][..n] && (n == |order[i]| || order[i][n] < order[j][n]))
  }

  // All keys, once each, in the order of last access and then key.
  method OldestFirst(index: Index) returns (order: seq<string>)
    ensures LruOrder(index, order)
    ensures ByAccess(index, order)
  {
    hide LexLess, ByAccess;
    order := [];
    var rest := index.Keys;
    while rest != {}
      invariant rest <= index.Keys
      invariant forall i | 0 <= i < |order| :: order[i] in index && order[i] !in rest
      invariant forall k | k in index :: k in order || k in rest
      invariant forall i, j | 0 <= i < j < |order| :: order[i] != order[j] && Older(index, order[i], order[j])
      invariant forall i, k | 0 <= i < |order| && k in rest :: Older(index, order[i], k)
      decreases rest
    {
      ghost var oldest := OldestExists(index, rest);
      var k :| k in rest && forall j | j in rest && j != k :: Older(index, k, j);
      order := order + [k];
      rest := rest - {k};
    }
    OrderMeans(index, order);
  }

  lemma OrderMeans(index: Index, order: seq<string>)
    requires LruOrder(index, order)
    ensures ByAccess(index, order)
  {
    hide Older;
    forall i, j | 0 <= i < j < |order|
      ensures index[order[i]].lastAccess <= index[order[j]].lastAccess
    {
      OlderMeans(index, order[i], order[j]);
    }
    forall i, j | 0 <= i < j < |order| && index[order[i]].lastAccess == index[order[j]].lastAccess
      ensures exists n | 0 <= n <= |order[i]| && n < |order[j]| ::
                order[i][..n] == order[j][..n] && (n == |order[i]| || order[i][n] < order[j][n])
    {
      OlderMeans(index, order[i], order[j]);
    }
  }

  method SumBytes(index: Index) returns (total: nat)
    ensures total == TotalBytes(index)
  {
    total := 0;
    var rest := index;
    while rest != map[]
      invariant total + TotalBytes(rest) == TotalBytes(index)
      decreases |rest|
    {
      var k :| k in rest;
      TakeOut(rest, k);
      total := total + rest[k].size;
      rest := rest - {k};
    }
  }

  // The keys among the first `n` of the order whose files can be deleted.
  function Evicted(order: seq<string>, n: nat, locked: set<string>): set<string>
    requires n <= |order|
  {
    set i | 0 <= i < n && order[i] !in locked :: order[i]
  }

  // The files of the entries.
  ghost function FilesOf(index: Index): set<string> {
    set k | k in index :: ObjectName(k, index[k].extension)
  }

  lemma FilesOfOneMore(before: Index, now: Index, key: string)
    requires key in now && (forall k | k in now :: k in before && before[k] == now[k])
    ensures FilesOf(before - (now - {key}).Keys) == FilesOf(before - now.Keys) + {ObjectName(key, now[key].extension)}
  {
    var less, gone := before - (now - {key}).Keys, before - now.Keys;
    assert key in less && less[key] == now[key];
    forall k | k in less && k != key
      ensures k in gone && gone[k] == less[k]
    {
    }
    forall k | k in gone
      ensures k in less && gone[k] == less[k]
    {
    }
    hide ObjectName;
    forall name | name in FilesOf(gone)
      ensures name in FilesOf(less)
    {
      var k :| k in gone && name == ObjectName(k, gone[k].extension);
      assert less[k] == gone[k];
    }
  }

  // Exactly the files of the entries that went are gone.
  ghost predicate FilesFollow(files: map<string, nat>, before: Index, files': map<string, nat>, now: Index) {
    files' == files - FilesOf(before - now.Keys)
  }

  lemma FilesFollowStart(files: map<string, nat>, index: Index)
    ensures FilesFollow(files, index, files, index)
  {
  }

  lemma FilesFollowStep(files: map<string, nat>, before: Index, files': map<string, nat>, now: Index, key: string)
    requires FilesFollow(files, before, files', now)
    requires key in now && (forall k | k in now :: k in before && before[k] == now[k])
    ensures FilesFollow(files, before, files' - {ObjectName(key, now[key].extension)}, now - {key})
  {
    FilesOfOneMore(before, now, key);
    hide FilesOf;
  }

  class ArtworkCache {
    const maxBytes: nat
    const maxEntries: nat
    const maxObjectBytes: nat
    var index: Index
    var disk: map<string, nat>

    constructor (maxBytes: nat, maxEntries: nat, maxObjectBytes: nat, disk: map<string, nat>)
      ensures this.maxBytes == maxBytes && this.maxEntries == maxEntries && this.maxObjectBytes == maxObjectBytes
      ensures this.disk == disk && index == map[] && Valid()
    {
      this.maxBytes, this.maxEntries, this.maxObjectBytes := maxBytes, maxEntries, maxObjectBytes;
      this.disk, index := disk, map[];
    }

    // The entry names a file of exactly its size, no larger than allowed.
    ghost predicate Backed(files: map<string, nat>, key: string, e: Entry) {
      && ValidKey(key) && e.extension in EXTENSIONS
      && ObjectName(key, e.extension) in files && files[ObjectName(key, e.extension)] == e.size
      && e.size <= maxObjectBytes
    }

    ghost predicate Valid()
      reads this
    {
      forall k | k in index :: Backed(disk, k, index[k])
    }

    predicate BytesFit(bytes: nat, entries: nat) {
      bytes <= maxBytes && entries <= maxEntries
    }

    ghost predicate Fits(index: Index, incomingBytes: nat, incomingEntries: nat) {
      BytesFit(TotalBytes(index) + incomingBytes, |index| + incomingEntries)
    }

    // Deleting one object's file leaves every other key's file alone.
    lemma OthersStayBacked(files: map<string, nat>, key: string, e: Entry, index: Index)
      requires ValidKey(key) && e.extension in EXTENSIONS
      requires forall k | k in index :: Backed(files, k, index[k])
      ensures forall k | k in index && k != key :: Backed(files - {ObjectName(key, e.extension)}, k, index[k])
    {
      forall k | k in index && k != key
        ensures Backed(files - {ObjectName(key, e.extension)}, k, index[k])
      {
        if ObjectName(k, index[k].extension) == ObjectName(key, e.extension) {
          NamesAreInjective(k, index[k].extension, key, e.extension);
        }
      }
    }

    // Removes one object's file and entry, unless the file cannot be deleted.
    method Evict(key: string, locked: set<string>) returns (gone: bool)
      requires Valid() && key in index
      modifies this
      ensures Valid()
      ensures gone <==> key !in locked
      ensures gone ==> index == old(index) - {key} && disk == old(disk) - {ObjectName(key, old(index)[key].extension)}
      ensures !gone ==> unchanged(this)
    {
      gone := key !in locked;
      if gone {
        ParsingInvertsNaming(ObjectName(key, index[key].extension), key, index[key].extension);
        OthersStayBacked(disk, key, index[key], index);
        disk := disk - {ObjectName(key, index[key].extension)};
        index := index - {key};
      }
    }

    /** Exact least-recently-used eviction: the keys gone from `before` are those among the first
        `cut` of the order whose files are not locked, and each turn was taken because the limits did
        not hold at that point. */
    ghost predicate Pruned(before: Index, now: Index, order: seq<string>, cut: nat, locked: set<string>, bytes: nat, entries: nat) {
      && LruOrder(before, order) && cut <= |order|
      && now == before - Evicted(order, cut, locked)
      && (forall i: nat | i < cut :: !Fits(before - Evicted(order, i, locked), bytes, entries))
    }

    lemma PrunedStep(before: Index, now: Index, order: seq<string>, cut: nat, locked: set<string>, bytes: nat, entries: nat)
      requires Pruned(before, now, order, cut, locked, bytes, entries) && cut < |order| && !Fits(now, bytes, entries)
      ensures order[cut] in now
      ensures
        Pruned(before, if order[cut] in locked then now else now - {order[cut]}, order, cut + 1, locked, bytes, entries)
    {
      hide LexLess, Older, Fits, BytesFit;
      var k := order[cut];
      assert Evicted(order, cut + 1, locked) == Evicted(order, cut, locked) + (if k in locked then {} else {k});
      assert k in now;
      assert k !in locked ==> now - {k} == before - Evicted(order, cut + 1, locked);
    }

    lemma PrunedStart(before: Index, order: seq<string>, locked: set<string>, bytes: nat, entries: nat)
      requires LruOrder(before, order)
      ensures Pruned(before, before, order, 0, locked, bytes, entries)
    {
      assert Evicted(order, 0, locked) == {};
    }

    lemma PrunedEverything(before: Index, now: Index, order: seq<string>, locked: set<string>, bytes: nat, entries: nat)
      requires Pruned(before, now, order, |order|, locked, bytes, entries) && before.Keys !! locked
      ensures now == map[]
    {
      forall k | k in before
        ensures k in Evicted(order, |order|, locked)
      {
        assert k in order;
      }
    }

    /** What stays keeps its entry, whatever is locked stays, nothing goes while something less recently
        used (or equally, with a smaller key) and not locked stays, and putting one of those gone, the
        last one, back would exceed a limit. */
    ghost predicate EvictsOldest(before: Index, now: Index, locked: set<string>, bytes: nat, entries: nat) {
      && (forall k | k in now :: k in before && now[k] == before[k])
      && (forall k | k in before && k in locked :: k in now)
      && (forall e, k | e in before && e !in now && k in now && k !in locked ::
            && before[e].lastAccess <= before[k].lastAccess
            && (before[e].lastAccess == before[k].lastAccess ==>
                  exists n | 0 <= n <= |e| && n < |k| :: e[..n] == k[..n] && (n == |e| || e[n] < k[n])))
      && (now != before ==> exists e | e in before && e !in now ::
            TotalBytes(now) + before[e].size + bytes > maxBytes || |now| + 1 + entries > maxEntries)
    }

    lemma PrunedKeepsEntries(before: Index, now: Index, order: seq<string>, cut: nat, locked: set<string>, bytes: nat, entries: nat)
      requires Pruned(before, now, order, cut, locked, bytes, entries)
      ensures forall k | k in now :: k in before && now[k] == before[k]
      ensures forall k | k in before && k in locked :: k in now
    {
    }

    // A key that went is no younger than one that stayed, unless that one is locked.
    lemma GoneIsOlder(before: Index, now: Index, order: seq<string>, cut: nat, locked: set<string>, bytes: nat, entries: nat,
                      e: string, k: string)
      requires Pruned(before, now, order, cut, locked, bytes, entries)
      requires e in before && e !in now && k in now && k !in locked
      ensures before[e].lastAccess <= before[k].lastAccess
      ensures before[e].lastAccess == before[k].lastAccess ==>
                exists n | 0 <= n <= |e| && n < |k| :: e[..n] == k[..n] && (n == |e| || e[n] < k[n])
    {
      hide Older, Fits;
      var i :| 0 <= i < cut && order[i] == e;
      assert k in order;
      var j :| 0 <= j < |order| && order[j] == k;
      assert j >= cut;
      OlderMeans(before, e, k);
    }

    // Putting the last one evicted back would exceed a limit.
    lemma {:induction false} LastWasNeeded(before: Index, now: Index, order: seq<string>, cut: nat, locked: set<string>, bytes: nat, entries: nat)
      returns (e: string)
      requires Pruned(before, now, order, cut, locked, bytes, entries) && now != before
      ensures e in before && e !in now
      ensures TotalBytes(now) + before[e].size + bytes > maxBytes || |now| + 1 + entries > maxEntries
    {
      hide LruOrder, TotalBytes, Fits;
      NothingEvicted(order, locked);
      if cut > 0 {
        e := order[cut - 1];
        var earlier := before - Evicted(order, cut - 1, locked);
        OneMoreEvicted(order, cut - 1, locked);
        if e in locked {
          e := LastWasNeeded(before, now, order, cut - 1, locked, bytes, entries);
        } else {
          LruDistinct(before, order, cut - 1, locked);
          assert earlier - {e} == now;
          OneTooMany(earlier, e, bytes, entries);
        }
      }
    }

    lemma NothingEvicted(order: seq<string>, locked: set<string>)
      ensures Evicted(order, 0, locked) == {}
    {
    }

    lemma OneMoreEvicted(order: seq<string>, n: nat, locked: set<string>)
      requires n < |order|
      ensures Evicted(order, n + 1, locked) == Evicted(order, n, locked) + (if order[n] in locked then {} else {order[n]})
    {
    }

    lemma OneTooMany(index: Index, key: string, bytes: nat, entries: nat)
      requires key in index && !Fits(index, bytes, entries)
      ensures TotalBytes(index - {key}) + index[key].size + bytes > maxBytes || |index - {key}| + 1 + entries > maxEntries
    {
      TakeOut(index, key);
      assert (index - {key}).Keys == index.Keys - {key};
    }

    lemma LruDistinct(before: Index, order: seq<string>, i: nat, locked: set<string>)
      requires LruOrder(before, order) && i < |order|
      ensures order[i] in before && order[i] !in Evicted(order, i, locked)
    {
    }

    // One turn of the loop, with its running totals.
    method EvictInTurn(oldest: seq<string>, n: nat, total: nat, entries: nat, ghost before: Index, locked: set<string>,
                       ghost bytes: nat, ghost count: nat, ghost files: map<string, nat>)
      returns (total': nat, entries': nat)
      requires Valid() && n < |oldest| && Pruned(before, index, oldest, n, locked, bytes, count) && !Fits(index, bytes, count)
      requires total == TotalBytes(index) && entries == |index|
      requires FilesFollow(files, before, disk, index)
      modifies this
      ensures Valid() && Pruned(before, index, oldest, n + 1, locked, bytes, count)
      ensures total' == TotalBytes(index) && entries' == |index|
      ensures FilesFollow(files, before, disk, index)
    {
      hide Pruned, Valid, Fits, FilesFollow, EvictsOldest, LruOrder, Older, LexLess, ObjectName;
      var key := oldest[n];
      PrunedStep(before, index, oldest, n, locked, bytes, count);
      PrunedKeepsEntries(before, index, oldest, n, locked, bytes, count);
      FilesFollowStep(files, before, disk, index, key);
      var size := index[key].size;
      TakeOut(index, key);
      total', entries' := total, entries;
      var gone := Evict(key, locked);
      if gone {
        total' := total - size;
        entries' := entries - 1;
      }
    }

    // The loop of `prune_to_limits`: one turn after the other, until the incoming object fits.
    method EvictUntilFits(oldest: seq<string>, incomingBytes: nat, incomingEntries: nat, locked: set<string>)
      returns (total: nat, entries: nat, ghost cut: nat)
      requires Valid() && LruOrder(index, oldest)
      modifies this
      ensures Valid() && Pruned(old(index), index, oldest, cut, locked, incomingBytes, incomingEntries)
      ensures total == TotalBytes(index) && entries == |index|
      ensures cut < |oldest| ==> BytesFit(total + incomingBytes, entries + incomingEntries)
      ensures FilesFollow(old(disk), old(index), disk, index)
    {
      hide Pruned, Valid, FilesFollow, Fits, TotalBytes, LruOrder;
      total := SumBytes(index);
      entries := |index|;
      PrunedStart(index, oldest, locked, incomingBytes, incomingEntries);
      FilesFollowStart(disk, index);
      var n := 0;
      while n < |oldest| && !BytesFit(total + incomingBytes, entries + incomingEntries)
        invariant Valid() && n <= |oldest|
        invariant Pruned(old(index), index, oldest, n, locked, incomingBytes, incomingEntries)
        invariant total == TotalBytes(index) && entries == |index|
        invariant FilesFollow(old(disk), old(index), disk, index)
      {
        FitsByTotals(index, incomingBytes, incomingEntries);
        total, entries := EvictInTurn(oldest, n, total, entries, old(index), locked, incomingBytes, incomingEntries, old(disk));
        n := n + 1;
      }
      cut := n;
    }

    /** `prune_to_limits`: the running totals are the real sum and count, eviction is exact (`Pruned`)
        and stops as soon as the incoming object fits, the answer is whether both limits hold, and
        with every file deletable it succeeds whenever the incoming object alone fits. `locked` are
        the keys whose files cannot be deleted. In plain terms: what stays keeps its entry, exactly the
        files of what went are deleted, nothing went while something less recently used (or equally,
        with a smaller key) and deletable stayed, and the last one to go had to. */
    method PruneToLimits(incomingBytes: nat, incomingEntries: nat, locked: set<string>)
      returns (ok: bool, ghost order: seq<string>, ghost cut: nat)
      requires Valid()
      modifies this
      ensures Valid() && Pruned(old(index), index, order, cut, locked, incomingBytes, incomingEntries)
      ensures ok <==> Fits(index, incomingBytes, incomingEntries)
      ensures cut < |order| ==> ok
      ensures old(index).Keys !! locked && BytesFit(incomingBytes, incomingEntries) ==> ok
      ensures ok <==> TotalBytes(index) + incomingBytes <= maxBytes && |index| + incomingEntries <= maxEntries
      ensures FilesFollow(old(disk), old(index), disk, index)
      ensures EvictsOldest(old(index), index, locked, incomingBytes, incomingEntries)
    {
      hide Pruned, Valid, FilesFollow, Fits, TotalBytes, LruOrder, EvictsOldest, BytesFit, ByAccess;
      var oldest := OldestFirst(index);
      order := oldest;
      var total, entries;
      total, entries, cut := EvictUntilFits(oldest, incomingBytes, incomingEntries, locked);
      ok := BytesFit(total + incomingBytes, entries + incomingEntries);
      FitsByTotals(index, incomingBytes, incomingEntries);
      PruneEnds(old(index), index, order, cut, locked, incomingBytes, incomingEntries);
    }

    // What exact eviction means for the entries that went and those that stayed.
    lemma PrunedMeans(before: Index, now: Index, order: seq<string>, cut: nat, locked: set<string>, bytes: nat, entries: nat)
      requires Pruned(before, now, order, cut, locked, bytes, entries)
      ensures EvictsOldest(before, now, locked, bytes, entries)
    {
      hide Pruned, TotalBytes;
      PrunedKeepsEntries(before, now, order, cut, locked, bytes, entries);
      forall e, k | e in before && e !in now && k in now && k !in locked
        ensures && before[e].lastAccess <= before[k].lastAccess
                && (before[e].lastAccess == before[k].lastAccess ==>
                      exists n | 0 <= n <= |e| && n < |k| :: e[..n] == k[..n] && (n == |e| || e[n] < k[n]))
      {
        GoneIsOlder(before, now, order, cut, locked, bytes, entries, e, k);
      }
      if now != before {
        var e := LastWasNeeded(before, now, order, cut, locked, bytes, entries);
      }
    }

    lemma FitsByTotals(index: Index, bytes: nat, entries: nat)
      ensures Fits(index, bytes, entries) == BytesFit(TotalBytes(index) + bytes, |index| + entries)
      ensures Fits(index, bytes, entries) <==> TotalBytes(index) + bytes <= maxBytes && |index| + entries <= maxEntries
    {
    }

    lemma PruneEnds(before: Index, now: Index, order: seq<string>, cut: nat, locked: set<string>, bytes: nat, entries: nat)
      requires Pruned(before, now, order, cut, locked, bytes, entries)
      ensures EvictsOldest(before, now, locked, bytes, entries) && cut <= |order|
      ensures cut == |order| && before.Keys !! locked && BytesFit(bytes, entries) ==> Fits(now, bytes, entries)
    {
      hide EvictsOldest, BytesFit, Fits, LruOrder;
      PrunedMeans(before, now, order, cut, locked, bytes, entries);
      if cut == |order| {
        EverythingGoneFits(before, now, order, locked, bytes, entries);
      }
    }

    // Once every key had its turn, either a locked file is left or the incoming object has all the room.
    lemma EverythingGoneFits(before: Index, now: Index, order: seq<string>, locked: set<string>, bytes: nat, entries: nat)
      requires Pruned(before, now, order, |order|, locked, bytes, entries)
      ensures before.Keys !! locked && BytesFit(bytes, entries) ==> Fits(now, bytes, entries)
    {
      if before.Keys !! locked {
        hide Pruned;
        PrunedEverything(before, now, order, locked, bytes, entries);
      }
    }

    /** `lookup`: a key is found exactly when it is indexed and its file can be inspected; the file
        then exists with the indexed size. Finding refreshes the access time and nothing else. */
    method Lookup(key: string, inspectable: bool, now: nat) returns (found: Option<string>)
      requires Valid()
      modifies this`index
      ensures Valid()
      ensures found.Some? <==> key in old(index) && inspectable
      ensures found.Some? ==>
                && found.value == ObjectName(key, old(index)[key].extension)
                && found.value in disk && disk[found.value] == old(index)[key].size
                && index == old(index)[key := old(index)[key].(lastAccess := now)]
      ensures found.None? ==> index == old(index) - {key}
    {
      if key !in index {
        return None;
      }
      var entry := index[key];
      var name := ObjectName(key, entry.extension);
      if !(inspectable && name in disk && disk[name] == entry.size && disk[name] <= maxObjectBytes) {
        index := index - {key};
        return None;
      }
      index := index[key := entry.(lastAccess := now)];
      return Some(name);
    }

    // A download in progress writes under a temporary name.
    method WriteTemporary(key: string, nonce: string, size: nat) returns (name: string)
      requires Valid()
      modifies this`disk
      ensures Valid() && name == TemporaryName(key, nonce) && disk == old(disk)[name := size]
    {
      name := TemporaryName(key, nonce);
      TemporaryNeverParses(key, nonce);
      NoEntryNames(disk, index, name);
      disk := disk[name := size];
    }

    // A name that does not parse belongs to no entry.
    lemma NoEntryNames(files: map<string, nat>, index: Index, name: string)
      requires forall k | k in index :: Backed(files, k, index[k])
      requires ParseObjectName(name).None?
      ensures forall k | k in index :: ObjectName(k, index[k].extension) != name
    {
      forall k | k in index
        ensures ObjectName(k, index[k].extension) != name
      {
        ParsingInvertsNaming(name, k, index[k].extension);
      }
    }

    // Evicting entries leaves a file alone that no entry names.
    lemma TemporaryStays(files: map<string, nat>, before: Index, files': map<string, nat>, now: Index, temporary: string)
      requires forall k | k in before :: Backed(files, k, before[k])
      requires FilesFollow(files, before, files', now) && ParseObjectName(temporary).None? && temporary in files
      ensures temporary in files' && files'[temporary] == files[temporary]
    {
      NoEntryNames(files, before, temporary);
    }

    // Moving a file onto an object's name leaves every other key's entry backed.
    lemma RenameKeepsBacked(files: map<string, nat>, index: Index, temporary: string, key: string, extension: string, size: nat)
      requires forall k | k in index :: Backed(files, k, index[k])
      requires ParseObjectName(temporary).None? && ValidKey(key) && extension in EXTENSIONS
      ensures
        var files' := (files - {temporary})[ObjectName(key, extension) := size];
        forall k | k in index && k != key :: Backed(files', k, index[k])
    {
      NoEntryNames(files, index, temporary);
      forall k | k in index && k != key
        ensures ObjectName(k, index[k].extension) != ObjectName(key, extension)
      {
        if ObjectName(k, index[k].extension) == ObjectName(key, extension) {
          NamesAreInjective(k, index[k].extension, key, extension);
        }
      }
    }

    /** `store_download`: the index is pruned exactly for the new object; the download succeeds exactly
        when that made room and the rename works. A success makes the temporary file the key's object,
        indexes it with its size, and ends within both limits; a failure leaves the temporary file. */
    method StoreDownload(key: string, extension: string, temporary: string, size: nat, now: nat,
                         locked: set<string>, renames: bool)
      returns (ok: bool, ghost pruned: Index, ghost order: seq<string>, ghost cut: nat)
      requires Valid() && ValidKey(key) && extension in EXTENSIONS
      requires ParseObjectName(temporary).None? && temporary in disk && disk[temporary] == size <= maxObjectBytes
      modifies this
      ensures Valid()
      ensures Pruned(old(index), pruned, order, cut, locked, size, 1)
      ensures EvictsOldest(old(index), pruned, locked, size, 1)
      ensures ok <==> renames && TotalBytes(pruned) + size <= maxBytes && |pruned| + 1 <= maxEntries
      ensures renames && old(index).Keys !! locked && BytesFit(size, 1) ==> ok
      ensures ok ==>
                && index == pruned[key := Entry(extension, size, now)]
                && TotalBytes(index) <= maxBytes && |index| <= maxEntries
                && temporary !in disk && ObjectName(key, extension) in disk && disk[ObjectName(key, extension)] == size
      ensures !ok ==> index == pruned && temporary in disk && disk[temporary] == size
    {
      hide LexLess, Older, LruOrder, ParseObjectName, ValidKey, LastDot, Pruned, EvictsOldest, FilesFollow;
      ok, order, cut := PruneToLimits(size, 1, locked);
      pruned := index;
      TemporaryStays(old(disk), old(index), disk, index, temporary);
      if !ok || !renames {
        return false, pruned, order, cut;
      }
      RenameKeepsBacked(disk, index, temporary, key, extension, size);
      InsertFits(index, key, Entry(extension, size, now));
      ParsingInvertsNaming(ObjectName(key, extension), key, extension);
      disk := (disk - {temporary})[ObjectName(key, extension) := size];
      index := index[key := Entry(extension, size, now)];
    }

    // Indexing an object never takes more room than the prune before it counted.
    lemma InsertFits(index: Index, key: string, e: Entry)
      ensures TotalBytes(index[key := e]) <= TotalBytes(index) + e.size && |index[key := e]| <= |index| + 1
    {
      TakeOut(index[key := e], key);
      if key in index {
        TakeOut(index, key);
        assert index[key := e] - {key} == index - {key};
        assert index[key := e].Keys == index.Keys;
      } else {
        assert index[key := e] - {key} == index;
      }
    }

    // An object's name, of a file no larger than allowed.
    ghost predicate Keepable(files: map<string, nat>, name: string, key: string) {
      name in files && files[name] <= maxObjectBytes
      && ParseObjectName(name).Some? && ParseObjectName(name).value.0 == key
    }

    ghost predicate AccessFrom(loaded: Index, modified: string -> nat, key: string, e: Entry) {
      e.lastAccess == if key in loaded then loaded[key].lastAccess else modified(ObjectName(key, e.extension))
    }

    /** Start-up: whatever index was loaded and whatever the directory holds, what is indexed
        afterwards is on disk with exactly the recorded size. The keys found are exactly those of the
        objects whose directory entry can be read (`readable`), with the recorded access time if there
        was one, and the index is what least-recently-used pruning leaves of them. */
    method LoadAndReconcile(loaded: Index, modified: string -> nat, listed: bool, readable: set<string>, locked: set<string>)
      returns (ghost found: Index, ghost order: seq<string>, ghost cut: nat)
      modifies this
      ensures Valid()
      ensures forall name, key | listed && name in readable && Keepable(old(disk), name, key) :: key in found
      ensures forall k | k in found ::
                var name := k + "." + found[k].extension;
                && listed && name in readable && name in old(disk) && old(disk)[name] == found[k].size
                && found[k].lastAccess == if k in loaded then loaded[k].lastAccess else modified(name)
      ensures forall k | k in index ::
                var name := k + "." + index[k].extension;
                name in disk && disk[name] == index[k].size <= maxObjectBytes
      ensures Pruned(found, index, order, cut, locked, 0, 0) && (cut < |order| ==> Fits(index, 0, 0))
      ensures EvictsOldest(found, index, locked, 0, 0)
      ensures found.Keys !! locked ==> TotalBytes(index) <= maxBytes && |index| <= maxEntries
    {
      hide LexLess, Older, LruOrder, Pruned, Fits, LastDot, ParseObjectName, AccessFrom, EvictsOldest, FilesFollow;
      var discovered: Index := map[];
      var names := if listed then disk.Keys else {};
      while names != {}
        invariant names <= disk.Keys && disk.Keys <= old(disk).Keys
        invariant listed || names == {}
        invariant listed || discovered == map[]
        invariant forall name | name in disk :: disk[name] == old(disk)[name]
        invariant forall k | k in discovered :: Backed(disk, k, discovered[k]) && ObjectName(k, discovered[k].extension) !in names
        invariant forall name, key | listed && name in readable && name !in names && Keepable(old(disk), name, key) ::
                    key in discovered
        invariant forall k | k in discovered :: FoundOnDisk(old(disk), readable, k, discovered[k])
        invariant forall k | k in discovered :: AccessFrom(loaded, modified, k, discovered[k])
        decreases names
      {
        var name :| name in names;
        names := names - {name};
        discovered := Inspect(name, loaded, modified, readable, discovered);
      }
      found := discovered;
      index := discovered;
      var ok;
      ok, order, cut := PruneToLimits(0, 0, locked);
      FoundMeans(old(disk), readable, loaded, modified, found);
    }

    lemma FoundMeans(files: map<string, nat>, readable: set<string>, loaded: Index, modified: string -> nat, found: Index)
      requires forall k | k in found :: FoundOnDisk(files, readable, k, found[k]) && AccessFrom(loaded, modified, k, found[k])
      ensures forall k | k in found ::
                var name := k + "." + found[k].extension;
                && name in readable && name in files && files[name] == found[k].size
                && found[k].lastAccess == if k in loaded then loaded[k].lastAccess else modified(name)
    {
    }

    ghost predicate FoundOnDisk(files: map<string, nat>, readable: set<string>, key: string, e: Entry) {
      var name := ObjectName(key, e.extension);
      name in readable && name in files && files[name] == e.size
    }

    // One directory entry: foreign and oversized files are deleted if they can be, objects are indexed.
    method Inspect(name: string, loaded: Index, modified: string -> nat, readable: set<string>, discovered: Index)
      returns (r: Index)
      requires name in disk
      requires forall k | k in discovered :: Backed(disk, k, discovered[k]) && ObjectName(k, discovered[k].extension) != name
      modifies this`disk
      ensures disk == old(disk) || disk == old(disk) - {name}
      ensures forall k | k in r :: Backed(disk, k, r[k])
      ensures forall k | k in r :: (ObjectName(k, r[k].extension) == name && name in readable && AccessFrom(loaded, modified, k, r[k]))
                                   || (k in discovered && r[k] == discovered[k])
      ensures forall k | k in discovered :: k in r
      ensures forall key | name in readable && Keepable(old(disk), name, key) :: key in r
    {
      r := discovered;
      var deleted: bool := *;
      var parsed := ParseObjectName(name);
      if parsed.None? {
        disk := if deleted then disk - {name} else disk;
        return;
      }
      if name !in readable {
        return;
      }
      if disk[name] > maxObjectBytes {
        disk := if deleted then disk - {name} else disk;
        return;
      }
      var (key, extension) := parsed.value;
      ParsingInvertsNaming(name, key, extension);
      var access := if key in loaded then loaded[key].lastAccess else modified(name);
      r := discovered[key := Entry(extension, disk[name], access)];
    }
  }
}
