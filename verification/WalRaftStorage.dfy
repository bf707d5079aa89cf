/**
 `WalRaftStorage` as code: each method's effect is the function of the same operation
 in `WalStorage`, so what is proved of runs there holds of calls here.
 */
module StorageEngine {
  import opened Prelude
  import opened RaftLog
  import opened LogCache
  import opened WalStorage

  // ------------------------------------------------------------------ ordered maps

  /** `map.range(..=index)` collected and removed. */
  method RemoveUpTo(log: Log, index: nat) returns (r: Log)
    ensures r == After(log, index)
  {
    r := log;
    var keys: set<nat> := set k | k in log && k <= index;
    while keys != {}
      invariant forall k | k in log && k <= index :: k in keys || k !in r
      invariant forall k | k in keys :: k <= index
      invariant forall k | k in r :: k in log && r[k] == log[k]
      invariant forall k | k in log && k > index :: k in r
      decreases |keys|
    {
      var k :| k in keys;
      r := r - {k};
      keys := keys - {k};
    }
  }

  /** `map.range((index + 1)..)` collected and removed. */
  method RemoveAfter(log: Log, index: nat) returns (r: Log)
    ensures r == UpTo(log, index)
  {
    r := log;
    var keys: set<nat> := set k | k in log && k > index;
    while keys != {}
      invariant forall k | k in log && k > index :: k in keys || k !in r
      invariant forall k | k in keys :: k > index
      invariant forall k | k in r :: k in log && r[k] == log[k]
      invariant forall k | k in log && k <= index :: k in r
      decreases |keys|
    {
      var k :| k in keys;
      r := r - {k};
      keys := keys - {k};
    }
  }

  /** The values of a `BTreeMap` in key order. */
  method InOrder(log: Log) returns (list: seq<Entry>)
    ensures list == Listing(log)
  {
    list := [];
    var rest := log;
    while rest != map[]
      invariant list + Listing(rest) == Listing(log)
      decreases |rest|
    {
      LeastExists(rest.Keys);
      var k :| k in rest.Keys && forall x | x in rest.Keys :: k <= x;
      assert k == Least(rest.Keys);
      list := list + [rest[k]];
      rest := rest - {k};
    }
  }

  // ------------------------------------------------------------------ sorting

  function SortedByIndex(list: seq<Entry>): seq<Entry> {
    if list == [] then [] else InsertSorted(SortedByIndex(list[..|list| - 1]), list[|list| - 1])
  }

  function FromEntries(list: seq<Entry>): Log {
    if list == [] then map[] else FromEntries(list[..|list| - 1])[list[|list| - 1].id.index := list[|list| - 1]]
  }

  ghost predicate NoRepeats(list: seq<Entry>) {
    list == [] || (NoRepeats(list[..|list| - 1]) && list[|list| - 1].id.index !in FromEntries(list[..|list| - 1]))
  }

  /** Sorting entries with distinct indices lists the map they form. */
  lemma {:induction false} SortedIsListing(list: seq<Entry>)
    requires NoRepeats(list)
    ensures SortedByIndex(list) == Listing(FromEntries(list)) && Keyed(FromEntries(list))
  {
    if list != [] {
      var init := list[..|list| - 1];
      SortedIsListing(init);
      InsertIntoListing(FromEntries(init), list[|list| - 1]);
    }
  }

  lemma {:induction false} FromEntriesConcat(a: seq<Entry>, b: seq<Entry>)
    ensures FromEntries(a + b) == FromEntries(a) + FromEntries(b)
  {
    if b == [] {
      assert a + b == a;
    } else {
      var init, last := b[..|b| - 1], b[|b| - 1];
      FromEntriesConcat(a, init);
      assert (a + b)[..|a + b| - 1] == a + init && (a + b)[|a + b| - 1] == last;
    }
  }

  lemma {:induction false} NoRepeatsConcat(a: seq<Entry>, b: seq<Entry>)
    requires NoRepeats(a) && NoRepeats(b) && FromEntries(a).Keys !! FromEntries(b).Keys
    ensures NoRepeats(a + b)
  {
    if b == [] {
      assert a + b == a;
    } else {
      var init, last := b[..|b| - 1], b[|b| - 1];
      assert last.id.index in FromEntries(b).Keys;
      assert FromEntries(init).Keys <= FromEntries(b).Keys;
      NoRepeatsConcat(a, init);
      FromEntriesConcat(a, init);
      assert (a + b)[..|a + b| - 1] == a + init && (a + b)[|a + b| - 1] == last;
    }
  }

  /** A list in index order repeats nothing, and forms the map it lists. */
  lemma {:induction false} AscendingForms(list: seq<Entry>)
    requires Ascending(list)
    ensures NoRepeats(list)
    ensures forall k :: k in FromEntries(list) <==> Has(list, k)
    ensures forall i | 0 <= i < |list| ::
              list[i].id.index in FromEntries(list) && FromEntries(list)[list[i].id.index] == list[i]
  {
    if list != [] {
      var init, last := list[..|list| - 1], list[|list| - 1];
      AscendingForms(init);
      forall k
        ensures k in FromEntries(list) <==> Has(list, k)
      {
        HasSnoc(list, k);
      }
      assert !Has(init, last.id.index);
      forall i | 0 <= i < |list|
        ensures list[i].id.index in FromEntries(list) && FromEntries(list)[list[i].id.index] == list[i]
      {
        if i < |init| {
          assert init[i] == list[i] && list[i].id.index < last.id.index;
        }
      }
    }
  }

  lemma HasSnoc(list: seq<Entry>, k: nat)
    requires list != []
    ensures Has(list, k) <==> Has(list[..|list| - 1], k) || list[|list| - 1].id.index == k
  {
    var init := list[..|list| - 1];
    if Has(list, k) {
      var i :| 0 <= i < |list| && list[i].id.index == k;
      if i < |init| {
        assert init[i].id.index == k;
      }
    }
    if Has(init, k) {
      var i :| 0 <= i < |init| && init[i].id.index == k;
      assert list[i].id.index == k;
    }
  }

  lemma ListingForms(log: Log)
    requires Keyed(log)
    ensures NoRepeats(Listing(log)) && FromEntries(Listing(log)) == log
  {
    var list := Listing(log);
    ListingLists(log);
    AscendingForms(list);
    forall k | k in log
      ensures k in FromEntries(list) && FromEntries(list)[k] == log[k]
    {
      assert Has(list, k);
      var i :| 0 <= i < |list| && list[i].id.index == k;
    }
  }

  lemma FromEntriesSnoc(list: seq<Entry>, e: Entry)
    ensures FromEntries(list + [e]) == FromEntries(list)[e.id.index := e]
    ensures NoRepeats(list + [e]) <==> NoRepeats(list) && e.id.index !in FromEntries(list)
  {
    assert (list + [e])[..|list|] == list;
  }

  lemma {:induction false} UnseenForms(list: seq<Entry>, cached: Log)
    requires NoRepeats(list)
    ensures NoRepeats(Unseen(list, cached)) && FromEntries(Unseen(list, cached)) == FromEntries(list) - cached.Keys
    decreases |list|
  {
    if list != [] {
      var init, last := list[..|list| - 1], list[|list| - 1];
      UnseenForms(init, cached);
      FromEntriesSnoc(Unseen(init, cached), last);
      UnseenStep(FromEntries(init), last, cached);
    }
  }

  lemma UnseenStep(log: Log, e: Entry, cached: Log)
    ensures log[e.id.index := e] - cached.Keys
         == if e.id.index in cached then log - cached.Keys else (log - cached.Keys)[e.id.index := e]
  {
  }

  /** Sorting the cached entries and the others of a scan lists their union. */
  lemma SortedUnion(cached: Log, scanned: Log)
    requires Keyed(cached) && Keyed(scanned)
    ensures SortedByIndex(Listing(cached) + Unseen(Listing(scanned), cached)) == Listing(scanned + cached)
  {
    var a, b := Listing(cached), Unseen(Listing(scanned), cached);
    ListingForms(cached);
    ListingForms(scanned);
    UnseenForms(Listing(scanned), cached);
    NoRepeatsConcat(a, b);
    FromEntriesConcat(a, b);
    SortedIsListing(a + b);
    MergeOthers(cached, scanned);
  }

  lemma MergeOthers(a: Log, b: Log)
    ensures a + (b - a.Keys) == b + a
  {
  }

  lemma SortedReadIsFound(mem: Memory, wal: seq<Record>, range: Range)
    requires Keyed(mem.cache.entries)
    ensures var cached := Restrict(mem.cache.entries, range);
            SortedByIndex(Listing(cached) + Unseen(Listing(Replay(wal, range)), cached)) ==
            Listing(Found(mem, wal, range))
    ensures Ascending(Listing(Replay(wal, range)))
  {
    ScanIsKeyed(wal, range);
    ListingLists(Replay(wal, range));
    SortedUnion(Restrict(mem.cache.entries, range), Replay(wal, range));
  }

  lemma ScanIsKeyed(wal: seq<Record>, range: Range)
    ensures Keyed(Replay(wal, range))
  {
    RangeScanIsFilteredReplay(wal, range);
    LogAboveFloor(wal);
  }

  method SortByIndex(list: seq<Entry>) returns (r: seq<Entry>)
    ensures r == SortedByIndex(list)
  {
    r := [];
    for n := 0 to |list|
      invariant r == SortedByIndex(list[..n])
    {
      assert list[..n + 1][..n] == list[..n];
      r := InsertSorted(r, list[n]);
    }
    assert list[..|list|] == list;
  }

  // ------------------------------------------------------------------ the storage

  class WalRaftStorage {
    const cfg: Config
    var vote: Option<Vote>
    var logCache: Log
    var logOrder: seq<nat>
    var lastPurged: Option<LogId>
    var lastApplied: Option<LogId>
    var lastMembership: StoredMembership
    var snapshotMeta: Option<SnapshotMeta>
    var snapshotPath: Option<string>
    var pendingUnsynced: nat
    /** The WAL file, its durable part, and the snapshot directory. */
    var wal: seq<Record>
    var synced: nat
    var files: set<string>

    ghost function Mem(): Memory
      reads this
    {
      Memory(vote, Cache(logCache, logOrder), lastPurged, lastApplied, lastMembership, snapshotMeta, snapshotPath)
    }

    ghost function View(): Store
      reads this
    {
      Store(Mem(), wal, synced, pendingUnsynced, files)
    }

    /** The order lists exactly the cached indices. */
    ghost predicate Valid()
      reads `logCache, `logOrder
    {
      LogCache.Valid(Cache(logCache, logOrder))
    }

    /** Opens the files left on disk, before anything is replayed. */
    constructor (cfg: Config, wal: seq<Record>, files: set<string>)
      ensures this.cfg == cfg
      ensures View() == Store(BLANK, wal, |wal|, 0, files)
    {
      this.cfg := cfg;
      vote, logCache, logOrder := None, map[], [];
      lastPurged, lastApplied, lastMembership := None, None, StoredMembership(None, {});
      snapshotMeta, snapshotPath, pendingUnsynced := None, None, 0;
      this.wal, synced, this.files := wal, |wal|, files;
    }

    method TouchCache(index: nat)
      modifies `logOrder
      ensures Cache(logCache, logOrder) == Touch(old(Cache(logCache, logOrder)), index)
    {
      logOrder := Retain(logOrder, cached => cached != index);
      if index in logCache {
        logOrder := logOrder + [index];
      }
    }

    method InsertEntry(entry: Entry)
      requires Valid()
      modifies `logCache, `logOrder
      ensures Cache(logCache, logOrder) == Insert(old(Cache(logCache, logOrder)), entry, cfg.capacity)
      ensures Valid()
    {
      ghost var before := Cache(logCache[entry.id.index := entry], logOrder);
      logCache := logCache[entry.id.index := entry];
      TouchCache(entry.id.index);
      TouchKeepsValid(before, entry.id.index);
      EvictKeepsValid(Cache(logCache, logOrder), cfg.capacity);
      while |logCache| > cfg.capacity
        invariant Valid()
        invariant Evict(Cache(logCache, logOrder), cfg.capacity) == Evict(Touch(before, entry.id.index), cfg.capacity)
        decreases |logOrder|
      {
        ValidIsSized(Cache(logCache, logOrder));
        PopFront(Cache(logCache, logOrder));
        var leastRecentlyUsed := logOrder[0];
        logOrder := logOrder[1..];
        logCache := logCache - {leastRecentlyUsed};
      }
    }

    method TruncateCache(index: nat)
      modifies `logCache, `logOrder
      ensures Cache(logCache, logOrder) == TruncateAfter(old(Cache(logCache, logOrder)), index)
    {
      logCache := RemoveAfter(logCache, index);
      logOrder := Retain(logOrder, i => i <= index);
    }

    method PurgeCache(index: nat)
      modifies `logCache, `logOrder
      ensures Cache(logCache, logOrder) == PurgeUpTo(old(Cache(logCache, logOrder)), index)
    {
      logCache := RemoveUpTo(logCache, index);
      logOrder := Retain(logOrder, i => i > index);
    }

    method WriteFrame(r: Record, syncNow: bool)
      modifies `wal, `synced, `pendingUnsynced
      ensures wal == old(wal) + [r]
      ensures synced == if syncNow then |wal| else old(synced)
      ensures pendingUnsynced == if syncNow then 0 else old(pendingUnsynced) + 1
    {
      wal := wal + [r];
      if syncNow {
        synced := |wal|;
        pendingUnsynced := 0;
      } else {
        pendingUnsynced := pendingUnsynced + 1;
      }
    }

    method SyncWal()
      modifies `synced, `pendingUnsynced
      ensures View() == Sync(old(View()))
    {
      synced := |wal|;
      pendingUnsynced := 0;
    }

    method ApplyWalRecord(r: Record) returns (ok: bool)
      requires Valid()
      modifies this
      ensures Valid()
      ensures ok == !(r.SnapshotApplied? && SnapshotPath(cfg, r.meta) !in files)
      ensures View() == if ok then old(View()).(mem := Effect(cfg, old(Mem()), r)) else old(View())
    {
      ok := true;
      match r {
        case AppendLog(entry) =>
          NoteApplied(entry);
          InsertEntry(entry);
        case SaveVote(v) =>
          vote := Some(v);
        case SnapshotApplied(meta) =>
          var path := WalStorage.SnapshotPath(cfg, meta);
          if path !in files {
            return false;
          }
          NoteSnapshot(meta, path);
        case Truncate(id) =>
          TruncateKeepsValid(Mem().cache, id.index);
          TruncateCache(id.index);
        case Purge(id) =>
          PurgeKeepsValid(Mem().cache, id.index);
          PurgeCache(id.index);
          lastPurged := Some(id);
      }
    }

    /** `replay_wal`, after the framing check. */
    method ReplayWal() returns (ok: bool)
      requires Mem() == BLANK
      modifies this
      ensures ok == Recover(cfg, wal, files).Some?
      ensures ok ==> View() == old(View()).(mem := Recover(cfg, wal, files).value)
    {
      var n := 0;
      while n < |wal|
        invariant 0 <= n <= |wal| && Valid()
        invariant Recover(cfg, wal[..n], files) == Some(Mem())
        invariant View() == old(View()).(mem := Mem())
      {
        assert wal[..n + 1][..n] == wal[..n];
        var applied := ApplyWalRecord(wal[n]);
        if !applied {
          RecoverStops(cfg, wal, n + 1, files);
          return false;
        }
        n := n + 1;
      }
      assert wal[..n] == wal;
      ok := true;
    }

    /** The applied state after an entry is logged. */
    method NoteApplied(entry: Entry)
      modifies `lastApplied, `lastMembership
      ensures lastApplied == Some(entry.id) && lastMembership == MembershipAfter(old(lastMembership), entry)
    {
      lastApplied := Some(entry.id);
      if entry.payload.Membership? {
        lastMembership := StoredMembership(Some(entry.id), entry.payload.members);
      }
    }

    /** The state after a snapshot is installed. */
    method NoteSnapshot(meta: SnapshotMeta, path: string)
      modifies `lastApplied, `lastMembership, `snapshotMeta, `snapshotPath
      ensures lastApplied == meta.lastLogId && lastMembership == meta.membership
      ensures snapshotMeta == Some(meta) && snapshotPath == Some(path)
    {
      snapshotMeta := Some(meta);
      snapshotPath := Some(path);
      lastApplied := meta.lastLogId;
      lastMembership := meta.membership;
    }

    /** The record in the WAL, then in memory. */
    method LogEntry(entry: Entry, syncNow: bool)
      requires Valid()
      modifies this
      ensures Valid()
      ensures View() == Commit(cfg, old(View()), AppendLog(entry), syncNow)
    {
      WriteFrame(AppendLog(entry), syncNow);
      NoteApplied(entry);
      InsertEntry(entry);
    }

    method AppendEntryWithSync(entry: Entry, syncNow: bool)
      requires Valid()
      modifies this
      ensures Valid()
      ensures View() == if syncNow then Commit(cfg, old(View()), AppendLog(entry), true)
                        else AppendOne(cfg, old(View()), entry)
    {
      LogEntry(entry, syncNow);
      if !syncNow && cfg.fsyncInterval > 0 && pendingUnsynced >= cfg.fsyncInterval {
        SyncWal();
      }
    }

    method Append(entries: seq<Entry>)
      requires Valid()
      modifies this
      ensures Valid()
      ensures View() == AppendFn(cfg, old(View()), entries)
    {
      if entries == [] {
        return;
      }
      for n := 0 to |entries|
        invariant Valid()
        invariant View() == AppendEach(cfg, old(View()), entries[..n])
      {
        assert entries[..n + 1][..n] == entries[..n];
        AppendEntryWithSync(entries[n], false);
      }
      assert entries[..|entries|] == entries;
      if cfg.fsyncInterval == 0 {
        SyncWal();
      }
      if cfg.fsyncInterval > 0 && pendingUnsynced > 0 {
        SyncWal();
      }
    }

    method Truncate(id: LogId)
      modifies this
      ensures View() == Commit(cfg, old(View()), Record.Truncate(id), true)
    {
      WriteFrame(Record.Truncate(id), true);
      TruncateCache(id.index);
    }

    method Purge(id: LogId)
      modifies this
      ensures View() == Commit(cfg, old(View()), Record.Purge(id), true)
    {
      WriteFrame(Record.Purge(id), true);
      PurgeCache(id.index);
      lastPurged := Some(id);
    }

    method SaveVote(v: Vote)
      modifies this
      ensures View() == Commit(cfg, old(View()), Record.SaveVote(v), true)
    {
      WriteFrame(Record.SaveVote(v), true);
      vote := Some(v);
    }

    /** `restores` is the state machine's answer to the new contents. */
    method InstallSnapshot(meta: SnapshotMeta, restores: bool) returns (ok: bool)
      modifies this
      ensures ok == restores
      ensures View() == InstallFn(cfg, old(View()), meta, restores)
    {
      var path := WalStorage.SnapshotPath(cfg, meta);
      files := files + {path};
      if !restores {
        return false;
      }
      WriteFrame(SnapshotApplied(meta), true);
      NoteSnapshot(meta, path);
      ok := true;
    }

    method Apply(entries: seq<Entry>)
      modifies `lastApplied, `lastMembership
      ensures View() == old(View()).(mem := ApplyFn(old(Mem()), entries))
    {
      for n := 0 to |entries|
        invariant View() == old(View()).(mem := ApplyFn(old(Mem()), entries[..n]))
      {
        assert entries[..n + 1][..n] == entries[..n];
        lastApplied := Some(entries[n].id);
        if entries[n].payload.Membership? {
          lastMembership := StoredMembership(Some(entries[n].id), entries[n].payload.members);
        }
      }
      assert entries[..|entries|] == entries;
    }

    method ReadEntriesFromWal(range: Range) returns (list: seq<Entry>)
      ensures list == Listing(Replay(wal, range))
    {
      var entries: Log := map[];
      for n := 0 to |wal|
        invariant entries == Replay(wal[..n], range)
      {
        assert wal[..n + 1][..n] == wal[..n];
        match wal[n] {
          case AppendLog(entry) =>
            if range.Contains(entry.id.index) {
              entries := entries[entry.id.index := entry];
            }
          case Truncate(id) =>
            entries := RemoveAfter(entries, id.index);
          case Purge(id) =>
            entries := RemoveUpTo(entries, id.index);
          case SnapshotApplied(meta) =>
            if meta.lastLogId.Some? {
              entries := RemoveUpTo(entries, meta.lastLogId.value.index);
            }
          case SaveVote(_) =>
        }
      }
      assert wal[..|wal|] == wal;
      RangeScanIsFilteredReplay(wal, range);
      assert Restrict(entries, range) == entries;
      list := InOrder(Restrict(entries, range));
    }

    /** The loop over the scanned entries: those not cached are inserted and kept. */
    method FetchUnseen(cached: Log, scanned: seq<Entry>) returns (fetched: seq<Entry>)
      requires Valid() && Ascending(scanned)
      modifies `logCache, `logOrder
      ensures Valid()
      ensures fetched == Unseen(scanned, cached)
      ensures Cache(logCache, logOrder) == InsertAll(old(Cache(logCache, logOrder)), fetched, cfg.capacity)
    {
      FetchLoopIsUnseen(Cache(logCache, logOrder), cached, scanned, cfg.capacity);
      fetched := FetchEach(cached.Keys, scanned);
    }

    method FetchEach(cached: set<nat>, scanned: seq<Entry>) returns (fetched: seq<Entry>)
      requires Valid()
      modifies `logCache, `logOrder
      ensures Valid()
      ensures (Cache(logCache, logOrder), fetched) ==
              FetchLoop(old(Cache(logCache, logOrder)), cached, [], scanned, 0, cfg.capacity)
    {
      fetched := [];
      var seen := cached;
      for n := 0 to |scanned|
        invariant Valid()
        invariant FetchLoop(Cache(logCache, logOrder), seen, fetched, scanned, n, cfg.capacity)
               == FetchLoop(old(Cache(logCache, logOrder)), cached, [], scanned, 0, cfg.capacity)
      {
        var entry := scanned[n];
        if entry.id.index !in seen {
          InsertEntry(entry);
          fetched := fetched + [entry];
        }
        seen := seen + {entry.id.index};
      }
    }

    method TouchEach(entries: seq<Entry>)
      modifies `logOrder
      ensures Cache(logCache, logOrder) == TouchAll(old(Cache(logCache, logOrder)), entries)
    {
      for n := 0 to |entries|
        invariant Cache(logCache, logOrder) == TouchAll(old(Cache(logCache, logOrder)), entries[..n])
      {
        assert entries[..n + 1][..n] == entries[..n];
        TouchCache(entries[n].id.index);
      }
      assert entries[..|entries|] == entries;
    }

    /** Cached entries, then scanned ones, sorted. */
    method Gather(range: Range) returns (entries: seq<Entry>)
      requires Valid() && Keyed(logCache)
      modifies `logCache, `logOrder
      ensures entries == Listing(Found(old(Mem()), wal, range))
      ensures Cache(logCache, logOrder) ==
              InsertAll(old(Cache(logCache, logOrder)),
                        Unseen(Listing(Replay(wal, range)), Restrict(old(logCache), range)), cfg.capacity)
    {
      SortedReadIsFound(Mem(), wal, range);
      var cached := Restrict(logCache, range);
      var first := InOrder(cached);
      var scanned := ReadEntriesFromWal(range);
      var fetched := FetchUnseen(cached, scanned);
      entries := SortByIndex(first + fetched);
    }

    /** The answer to a read, and the cache after it. */
    method Read(range: Range) returns (entries: seq<Entry>)
      requires Valid() && Keyed(logCache)
      modifies `logCache, `logOrder
      ensures entries == Listing(Found(old(Mem()), wal, range))
      ensures Cache(logCache, logOrder) == ReadCache(cfg, old(Cache(logCache, logOrder)), wal, range, entries)
    {
      entries := Gather(range);
      TouchEach(entries);
    }

    /** `try_get_log_entries`. */
    method TryGetLogEntries(range: Range) returns (entries: seq<Entry>)
      requires range.Ordered()
      requires Valid() && Keyed(logCache)
      modifies `logCache, `logOrder
      ensures View() == ReadFn(cfg, old(View()), range).0
      ensures entries == ReadFn(cfg, old(View()), range).1
    {
      entries := Read(range);
    }

    /** `get_log_state`: the cache's last entry, whatever the log holds. */
    method LastLogId() returns (id: Option<LogId>)
      requires Keyed(logCache)
      ensures id.None? <==> logCache == map[]
      ensures id.Some? ==> id.value.index in logCache && logCache[id.value.index].id == id.value
      ensures id.Some? ==> GreatestIn(id.value.index, logCache)
    {
      var list := InOrder(logCache);
      ListingLists(logCache);
      if list == [] {
        assert forall k | k in logCache :: Has(list, k);
        return None;
      }
      forall k | k in logCache
        ensures k <= list[|list| - 1].id.index
      {
        assert Has(list, k);
      }
      id := Some(list[|list| - 1].id);
    }
  }

  /** What the loop over the scanned entries leaves, from its `n`-th round on. */
  ghost function FetchLoop(c: Cache, seen: set<nat>, fetched: seq<Entry>, list: seq<Entry>, n: nat, capacity: nat)
      : (Cache, seq<Entry>)
    requires n <= |list|
    decreases |list| - n
  {
    if n == |list| then (c, fetched)
    else
      var e := list[n];
      if e.id.index in seen then FetchLoop(c, seen + {e.id.index}, fetched, list, n + 1, capacity)
      else FetchLoop(Insert(c, e, capacity), seen + {e.id.index}, fetched + [e], list, n + 1, capacity)
  }

  lemma FetchLoopIsUnseen(c: Cache, cached: Log, list: seq<Entry>, capacity: nat)
    requires Ascending(list)
    ensures FetchLoop(c, cached.Keys, [], list, 0, capacity)
         == (InsertAll(c, Unseen(list, cached), capacity), Unseen(list, cached))
  {
    assert list[..0] == [];
    FetchLoopFrom(c, cached, cached.Keys, list, 0, capacity);
    assert list[..|list|] == list;
  }

  /** The loop, once it has passed the first `n` entries and has seen their indices. */
  lemma {:induction false} FetchLoopFrom(c: Cache, cached: Log, seen: set<nat>, list: seq<Entry>, n: nat, capacity: nat)
    requires Ascending(list) && n <= |list|
    requires forall i | n <= i < |list| :: list[i].id.index in seen <==> list[i].id.index in cached
    ensures var before, all := Unseen(list[..n], cached), Unseen(list[..|list|], cached);
            FetchLoop(InsertAll(c, before, capacity), seen, before, list, n, capacity) ==
            (InsertAll(c, all, capacity), all)
    decreases |list| - n
  {
    if n < |list| {
      var e := list[n];
      UnseenSnoc(list, n, cached);
      InsertAllSnoc(c, Unseen(list[..n], cached), e, capacity);
      assert forall i | n + 1 <= i < |list| :: list[i].id.index != e.id.index;
      FetchLoopFrom(c, cached, seen + {e.id.index}, list, n + 1, capacity);
      FetchLoopStep(InsertAll(c, Unseen(list[..n], cached), capacity), seen, Unseen(list[..n], cached), list, n,
                    capacity);
    }
  }

  lemma FetchLoopStep(c: Cache, seen: set<nat>, fetched: seq<Entry>, list: seq<Entry>, n: nat, capacity: nat)
    requires n < |list|
    ensures FetchLoop(c, seen, fetched, list, n, capacity)
         == var e := list[n];
            if e.id.index in seen then FetchLoop(c, seen + {e.id.index}, fetched, list, n + 1, capacity)
            else FetchLoop(Insert(c, e, capacity), seen + {e.id.index}, fetched + [e], list, n + 1, capacity)
  {
  }

  lemma UnseenSnoc(list: seq<Entry>, n: nat, cached: Log)
    requires n < |list|
    ensures Unseen(list[..n + 1], cached)
         == if list[n].id.index in cached then Unseen(list[..n], cached) else Unseen(list[..n], cached) + [list[n]]
  {
    assert list[..n + 1][..n] == list[..n];
  }

  lemma InsertAllSnoc(c: Cache, list: seq<Entry>, e: Entry, capacity: nat)
    ensures InsertAll(c, list + [e], capacity) == Insert(InsertAll(c, list, capacity), e, capacity)
  {
    assert (list + [e])[..|list|] == list;
  }

  lemma {:induction false} RecoverStops(cfg: Config, wal: seq<Record>, n: nat, files: set<string>)
    requires n <= |wal| && Recover(cfg, wal[..n], files).None?
    ensures Recover(cfg, wal, files).None?
    decreases |wal| - n
  {
    if n < |wal| {
      assert wal[..n + 1][..n] == wal[..n];
      RecoverStops(cfg, wal, n + 1, files);
    } else {
      assert wal[..n] == wal;
    }
  }
}
