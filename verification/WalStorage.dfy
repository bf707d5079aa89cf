/**
 `WalRaftStorage`: vote, log cache, purge and snapshot state in memory over a WAL
 that is appended before memory changes (crates/chirps-raft-storage/src/wal_storage.rs).
 */
module WalStorage {
  import opened Prelude
  import opened RaftLog
  import opened LogCache

  datatype Config = Config(capacity: nat, fsyncInterval: nat, dir: string, group: string)

  /** What the process holds in memory. */
  datatype Memory = Memory(vote: Option<Vote>, cache: Cache, purged: Option<LogId>, applied: Option<LogId>,
                           membership: StoredMembership, meta: Option<SnapshotMeta>, path: Option<string>)

  /** Memory, the records written to the WAL, how many of them are synced, the count of
      writes since the last sync, and the snapshot files on disk. */
  datatype Store = Store(mem: Memory, wal: seq<Record>, synced: nat, pending: nat, files: set<string>)

  const BLANK := Memory(None, EMPTY, None, None, StoredMembership(None, {}), None, None)

  const EMPTY_STORE := Store(BLANK, [], 0, 0, {})

  /** `snapshot_path`. */
  function SnapshotPath(cfg: Config, meta: SnapshotMeta): string {
    cfg.dir + "/snapshot-" + cfg.group + "-" + meta.snapshotId + ".alopex"
  }

  // ------------------------------------------------------------------ one record

  /** `last_membership` after an entry. */
  function MembershipAfter(m: StoredMembership, e: Entry): StoredMembership {
    if e.payload.Membership? then StoredMembership(Some(e.id), e.payload.members) else m
  }

  /** What a record does to memory, both when it is written and when it is replayed. */
  function Effect(cfg: Config, mem: Memory, r: Record): Memory {
    match r
    case AppendLog(e) =>
      mem.(applied := Some(e.id), membership := MembershipAfter(mem.membership, e),
           cache := Insert(mem.cache, e, cfg.capacity))
    case SaveVote(v) => mem.(vote := Some(v))
    case SnapshotApplied(meta) =>
      mem.(applied := meta.lastLogId, membership := meta.membership, meta := Some(meta),
           path := Some(SnapshotPath(cfg, meta)))
    case Truncate(id) => mem.(cache := TruncateAfter(mem.cache, id.index))
    case Purge(id) => mem.(cache := PurgeUpTo(mem.cache, id.index), purged := Some(id))
  }

  /** `replay_wal`: fails on a checkpoint whose snapshot file is missing. */
  function Recover(cfg: Config, wal: seq<Record>, files: set<string>): Option<Memory> {
    if wal == [] then Some(BLANK)
    else
      var before := Recover(cfg, wal[..|wal| - 1], files);
      var last := wal[|wal| - 1];
      if before.None? || (last.SnapshotApplied? && SnapshotPath(cfg, last.meta) !in files) then None
      else Some(Effect(cfg, before.value, last))
  }

  // ------------------------------------------------------------------ operations

  /** `write_frame`, then the record's effect on memory. */
  function Commit(cfg: Config, s: Store, r: Record, sync: bool): Store {
    s.(mem := Effect(cfg, s.mem, r), wal := s.wal + [r],
       synced := if sync then |s.wal| + 1 else s.synced,
       pending := if sync then 0 else s.pending + 1)
  }

  function Sync(s: Store): Store {
    s.(synced := |s.wal|, pending := 0)
  }

  /** `append_entry_with_sync(entry, false)`. */
  function AppendOne(cfg: Config, s: Store, e: Entry): Store {
    var s' := Commit(cfg, s, AppendLog(e), false);
    if cfg.fsyncInterval > 0 && s'.pending >= cfg.fsyncInterval then Sync(s') else s'
  }

  function AppendEach(cfg: Config, s: Store, entries: seq<Entry>): Store {
    if entries == [] then s
    else AppendOne(cfg, AppendEach(cfg, s, entries[..|entries| - 1]), entries[|entries| - 1])
  }

  function AppendFn(cfg: Config, s: Store, entries: seq<Entry>): Store {
    if entries == [] then s
    else
      var s' := AppendEach(cfg, s, entries);
      if cfg.fsyncInterval == 0 || s'.pending > 0 then Sync(s') else s'
  }

  /** `install_snapshot`: the file is written first; a state machine that cannot restore
      it stops the installation there. */
  function InstallFn(cfg: Config, s: Store, meta: SnapshotMeta, restores: bool): Store {
    var s' := s.(files := s.files + {SnapshotPath(cfg, meta)});
    if restores then Commit(cfg, s', SnapshotApplied(meta), true) else s'
  }

  /** The entries a read finds: the range scan of the WAL, cached entries first. */
  function Found(mem: Memory, wal: seq<Record>, range: Range): Log {
    Replay(wal, range) + Restrict(mem.cache.entries, range)
  }

  /** The scanned entries that were not cached, in index order. */
  function Unseen(list: seq<Entry>, cached: Log): seq<Entry> {
    if list == [] then []
    else
      var init, last := Unseen(list[..|list| - 1], cached), list[|list| - 1];
      if last.id.index in cached then init else init + [last]
  }

  /** The cache after a read: fetched entries inserted, the answer's entries touched. */
  ghost function ReadCache(cfg: Config, c: Cache, wal: seq<Record>, range: Range, answer: seq<Entry>): Cache {
    var fetched := Unseen(Listing(Replay(wal, range)), Restrict(c.entries, range));
    TouchAll(InsertAll(c, fetched, cfg.capacity), answer)
  }

  /** `try_get_log_entries`. */
  ghost function ReadFn(cfg: Config, s: Store, range: Range): (Store, seq<Entry>) {
    var answer := Listing(Found(s.mem, s.wal, range));
    (s.(mem := s.mem.(cache := ReadCache(cfg, s.mem.cache, s.wal, range, answer))), answer)
  }

  /** What `apply` does to the applied state. */
  function ApplyFn(mem: Memory, entries: seq<Entry>): Memory {
    if entries == [] then mem
    else
      var before, e := ApplyFn(mem, entries[..|entries| - 1]), entries[|entries| - 1];
      before.(applied := Some(e.id), membership := MembershipAfter(before.membership, e))
  }

  /** A new process over the same files; one that cannot open them leaves everything as it is. */
  function RestartFn(cfg: Config, s: Store): Store {
    var mem := Recover(cfg, s.wal, s.files);
    if mem.None? then s else s.(mem := mem.value)
  }

  datatype Op =
    | OpAppend(entries: seq<Entry>)
    | OpTruncate(id: LogId)
    | OpPurge(id: LogId)
    | OpVote(vote: Vote)
    | OpInstall(meta: SnapshotMeta, restores: bool)
    | OpRead(range: Range)
    | OpApply(committed: seq<Entry>)
    | OpRestart

  ghost function Step(cfg: Config, s: Store, op: Op): Store {
    match op
    case OpAppend(entries) => AppendFn(cfg, s, entries)
    case OpTruncate(id) => Commit(cfg, s, Truncate(id), true)
    case OpPurge(id) => Commit(cfg, s, Purge(id), true)
    case OpVote(vote) => Commit(cfg, s, SaveVote(vote), true)
    case OpInstall(meta, restores) => InstallFn(cfg, s, meta, restores)
    case OpRead(range) => ReadFn(cfg, s, range).0
    case OpApply(entries) => s.(mem := ApplyFn(s.mem, entries))
    case OpRestart => RestartFn(cfg, s)
  }

  ghost function Run(cfg: Config, ops: seq<Op>): Store {
    if ops == [] then EMPTY_STORE else Step(cfg, Run(cfg, ops[..|ops| - 1]), ops[|ops| - 1])
  }

  // ------------------------------------------------------------------ what the WAL says

  function LastVote(wal: seq<Record>): Option<Vote> {
    if wal == [] then None
    else if wal[|wal| - 1].SaveVote? then Some(wal[|wal| - 1].vote)
    else LastVote(wal[..|wal| - 1])
  }

  function LastPurge(wal: seq<Record>): Option<LogId> {
    if wal == [] then None
    else if wal[|wal| - 1].Purge? then Some(wal[|wal| - 1].id)
    else LastPurge(wal[..|wal| - 1])
  }

  function LastSnapshot(wal: seq<Record>): Option<SnapshotMeta> {
    if wal == [] then None
    else if wal[|wal| - 1].SnapshotApplied? then Some(wal[|wal| - 1].meta)
    else LastSnapshot(wal[..|wal| - 1])
  }

  function LastApplied(wal: seq<Record>): Option<LogId> {
    if wal == [] then None
    else
      match wal[|wal| - 1]
      case AppendLog(e) => Some(e.id)
      case SnapshotApplied(meta) => meta.lastLogId
      case _ => LastApplied(wal[..|wal| - 1])
  }

  function LastMembership(wal: seq<Record>): StoredMembership {
    if wal == [] then StoredMembership(None, {})
    else
      match wal[|wal| - 1]
      case AppendLog(e) => MembershipAfter(LastMembership(wal[..|wal| - 1]), e)
      case SnapshotApplied(meta) => meta.membership
      case _ => LastMembership(wal[..|wal| - 1])
  }

  /** The cache is valid, within capacity, and holds nothing the WAL does not. */
  ghost predicate CacheAgrees(cfg: Config, c: Cache, wal: seq<Record>) {
    && LogCache.Valid(c)
    && |c.entries| <= cfg.capacity
    && Sub(c.entries, History(wal))
  }

  /** The fields that the WAL determines. */
  ghost predicate FieldsAgree(cfg: Config, mem: Memory, wal: seq<Record>) {
    && mem.vote == LastVote(wal)
    && mem.purged == LastPurge(wal)
    && mem.meta == LastSnapshot(wal)
    && mem.path == if mem.meta.None? then None else Some(SnapshotPath(cfg, mem.meta.value))
  }

  ghost predicate AppliedAgrees(mem: Memory, wal: seq<Record>) {
    && mem.applied == LastApplied(wal)
    && mem.membership == LastMembership(wal)
  }

  /** Every checkpoint in the WAL has its snapshot file. */
  ghost predicate FilesPresent(cfg: Config, wal: seq<Record>, files: set<string>) {
    forall i | 0 <= i < |wal| :: wal[i].SnapshotApplied? ==> SnapshotPath(cfg, wal[i].meta) in files
  }

  // ------------------------------------------------------------------ every step keeps it

  lemma InsertAgrees(cfg: Config, c: Cache, wal: seq<Record>, e: Entry)
    requires CacheAgrees(cfg, c, wal)
    ensures CacheAgrees(cfg, Insert(c, e, cfg.capacity), wal + [AppendLog(e)])
  {
    HistorySnoc(wal, AppendLog(e));
    InsertKeepsValid(c, e, cfg.capacity);
  }

  lemma TruncateAgrees(cfg: Config, c: Cache, wal: seq<Record>, id: LogId)
    requires CacheAgrees(cfg, c, wal)
    ensures CacheAgrees(cfg, TruncateAfter(c, id.index), wal + [Truncate(id)])
  {
    HistorySnoc(wal, Truncate(id));
    TruncateKeepsValid(c, id.index);
  }

  lemma PurgeAgrees(cfg: Config, c: Cache, wal: seq<Record>, id: LogId)
    requires CacheAgrees(cfg, c, wal)
    ensures CacheAgrees(cfg, PurgeUpTo(c, id.index), wal + [Purge(id)])
  {
    HistorySnoc(wal, Purge(id));
    PurgeKeepsValid(c, id.index);
  }

  lemma EffectKeepsCache(cfg: Config, mem: Memory, wal: seq<Record>, r: Record)
    requires CacheAgrees(cfg, mem.cache, wal)
    ensures CacheAgrees(cfg, Effect(cfg, mem, r).cache, wal + [r])
  {
    match r {
      case AppendLog(e) => InsertAgrees(cfg, mem.cache, wal, e);
      case Truncate(id) => TruncateAgrees(cfg, mem.cache, wal, id);
      case Purge(id) => PurgeAgrees(cfg, mem.cache, wal, id);
      case SaveVote(_) => HistorySnoc(wal, r);
      case SnapshotApplied(_) => HistorySnoc(wal, r);
    }
  }

  lemma HistorySnoc(wal: seq<Record>, r: Record)
    ensures History(wal + [r]) == if r.SnapshotApplied? then History(wal) else ReplayStep(History(wal), r, EVERYTHING)
  {
    Snoc(wal, r);
  }

  lemma EffectKeepsFields(cfg: Config, mem: Memory, wal: seq<Record>, r: Record)
    requires FieldsAgree(cfg, mem, wal)
    ensures FieldsAgree(cfg, Effect(cfg, mem, r), wal + [r])
    ensures AppliedAgrees(mem, wal) ==> AppliedAgrees(Effect(cfg, mem, r), wal + [r])
  {
    Snoc(wal, r);
  }

  lemma ReadKeepsCache(cfg: Config, s: Store, range: Range)
    requires CacheAgrees(cfg, s.mem.cache, s.wal)
    ensures CacheAgrees(cfg, ReadFn(cfg, s, range).0.mem.cache, s.wal)
  {
    var scanned := Replay(s.wal, range);
    RangeScanIsFilteredReplay(s.wal, range);
    LogAboveFloor(s.wal);
    ListingLists(scanned);
    var cached := Restrict(s.mem.cache.entries, range);
    var fetched := Unseen(Listing(scanned), cached);
    UnseenComesFrom(Listing(scanned), cached, History(s.wal));
    InsertAllKeepsValid(s.mem.cache, fetched, cfg.capacity, History(s.wal));
    TouchAllKeepsValid(InsertAll(s.mem.cache, fetched, cfg.capacity), Listing(Found(s.mem, s.wal, range)));
  }

  lemma {:induction false} UnseenComesFrom(list: seq<Entry>, cached: Log, log: Log)
    requires forall i | 0 <= i < |list| :: list[i].id.index in log && log[list[i].id.index] == list[i]
    ensures forall i | 0 <= i < |Unseen(list, cached)| ::
              Unseen(list, cached)[i].id.index in log &&
              log[Unseen(list, cached)[i].id.index] == Unseen(list, cached)[i]
  {
    if list != [] {
      UnseenComesFrom(list[..|list| - 1], cached, log);
    }
  }

  /** Memory and files agree with the WAL. */
  ghost predicate Agrees(cfg: Config, s: Store) {
    && CacheAgrees(cfg, s.mem.cache, s.wal)
    && FieldsAgree(cfg, s.mem, s.wal)
    && FilesPresent(cfg, s.wal, s.files)
  }

  lemma CommitKeepsAgreement(cfg: Config, s: Store, r: Record, sync: bool)
    requires Agrees(cfg, s)
    requires r.SnapshotApplied? ==> SnapshotPath(cfg, r.meta) in s.files
    ensures Agrees(cfg, Commit(cfg, s, r, sync))
    ensures AppliedAgrees(s.mem, s.wal) ==> AppliedAgrees(Commit(cfg, s, r, sync).mem, Commit(cfg, s, r, sync).wal)
  {
    EffectKeepsCache(cfg, s.mem, s.wal, r);
    EffectKeepsFields(cfg, s.mem, s.wal, r);
  }

  /** Appends count their unsynced records, and with an interval there are never as many
      as that between two entries. */
  lemma {:induction false} AppendsAreCounted(cfg: Config, s: Store, entries: seq<Entry>)
    requires Agrees(cfg, s) && s.synced == |s.wal| && s.pending == 0
    ensures var s' := AppendEach(cfg, s, entries);
            && Agrees(cfg, s')
            && s'.synced + s'.pending == |s'.wal|
            && (cfg.fsyncInterval > 0 ==> s'.pending < cfg.fsyncInterval)
            && (AppliedAgrees(s.mem, s.wal) ==> AppliedAgrees(s'.mem, s'.wal))
  {
    if entries != [] {
      var init, last := entries[..|entries| - 1], entries[|entries| - 1];
      AppendsAreCounted(cfg, s, init);
      CommitKeepsAgreement(cfg, AppendEach(cfg, s, init), AppendLog(last), false);
    }
  }

  lemma {:induction false} ApplyKeepsRest(mem: Memory, entries: seq<Entry>)
    ensures ApplyFn(mem, entries) ==
            mem.(applied := ApplyFn(mem, entries).applied, membership := ApplyFn(mem, entries).membership)
  {
    if entries != [] {
      ApplyKeepsRest(mem, entries[..|entries| - 1]);
    }
  }

  /** Memory and files agree with the WAL and all of it is synced. */
  ghost predicate Settled(cfg: Config, s: Store) {
    Agrees(cfg, s) && s.synced == |s.wal| && s.pending == 0
  }

  /** A step from a settled store to a settled store that also keeps the applied state. */
  ghost predicate Keeps(cfg: Config, s: Store, s': Store) {
    Settled(cfg, s') && (AppliedAgrees(s.mem, s.wal) ==> AppliedAgrees(s'.mem, s'.wal))
  }

  lemma InstallKeepsSettled(cfg: Config, s: Store, meta: SnapshotMeta, restores: bool)
    requires Settled(cfg, s)
    ensures Keeps(cfg, s, InstallFn(cfg, s, meta, restores))
  {
    var written := s.(files := s.files + {SnapshotPath(cfg, meta)});
    assert Agrees(cfg, written);
    CommitKeepsAgreement(cfg, written, SnapshotApplied(meta), true);
  }

  lemma CommitKeepsSettled(cfg: Config, s: Store, r: Record)
    requires Settled(cfg, s) && !r.SnapshotApplied?
    ensures Keeps(cfg, s, Commit(cfg, s, r, true))
  {
    CommitKeepsAgreement(cfg, s, r, true);
  }

  lemma AppendKeepsSettled(cfg: Config, s: Store, entries: seq<Entry>)
    requires Settled(cfg, s)
    ensures Keeps(cfg, s, AppendFn(cfg, s, entries))
  {
    AppendsAreCounted(cfg, s, entries);
  }

  lemma ReadKeepsSettled(cfg: Config, s: Store, range: Range)
    requires Settled(cfg, s)
    ensures Keeps(cfg, s, ReadFn(cfg, s, range).0)
  {
    ReadKeepsCache(cfg, s, range);
  }

  lemma ApplyKeepsSettled(cfg: Config, s: Store, entries: seq<Entry>)
    requires Settled(cfg, s)
    ensures Settled(cfg, s.(mem := ApplyFn(s.mem, entries)))
  {
    ApplyKeepsRest(s.mem, entries);
  }

  lemma StepKeepsSettled(cfg: Config, s: Store, op: Op)
    requires Settled(cfg, s)
    ensures if op.OpApply? then Settled(cfg, Step(cfg, s, op)) else Keeps(cfg, s, Step(cfg, s, op))
  {
    var s' := Step(cfg, s, op);
    match op {
      case OpAppend(entries) => AppendKeepsSettled(cfg, s, entries); assert Keeps(cfg, s, s');
      case OpTruncate(id) => CommitKeepsSettled(cfg, s, Truncate(id)); assert Keeps(cfg, s, s');
      case OpPurge(id) => CommitKeepsSettled(cfg, s, Purge(id)); assert Keeps(cfg, s, s');
      case OpVote(vote) => CommitKeepsSettled(cfg, s, SaveVote(vote)); assert Keeps(cfg, s, s');
      case OpInstall(meta, restores) => InstallKeepsSettled(cfg, s, meta, restores); assert Keeps(cfg, s, s');
      case OpRead(range) => ReadKeepsSettled(cfg, s, range); assert Keeps(cfg, s, s');
      case OpApply(entries) => ApplyKeepsSettled(cfg, s, entries);
      case OpRestart => RestartKeepsSettled(cfg, s); assert Keeps(cfg, s, s');
    }
  }

  /** A restart always succeeds, because every checkpoint's file is there. */
  lemma RestartKeepsSettled(cfg: Config, s: Store)
    requires Settled(cfg, s)
    ensures Keeps(cfg, s, RestartFn(cfg, s)) && Recover(cfg, s.wal, s.files).Some?
  {
    RecoveredAgrees(cfg, s.wal, s.files);
  }

  /** Between operations of every run, memory agrees with the WAL and all of it is synced. */
  lemma {:induction false} RunsAgreeWithWal(cfg: Config, ops: seq<Op>)
    ensures var s := Run(cfg, ops);
            && Settled(cfg, s)
            && ((forall i | 0 <= i < |ops| :: !ops[i].OpApply?) ==> AppliedAgrees(s.mem, s.wal))
  {
    if ops != [] {
      var init := ops[..|ops| - 1];
      RunsAgreeWithWal(cfg, init);
      StepKeepsSettled(cfg, Run(cfg, init), ops[|ops| - 1]);
    }
  }

  // ------------------------------------------------------------------ reads

  /** What a read finds, for any cache that agrees with the WAL. */
  lemma FoundMeaning(cfg: Config, mem: Memory, wal: seq<Record>, range: Range)
    requires CacheAgrees(cfg, mem.cache, wal)
    ensures Keyed(Found(mem, wal, range)) && Sub(Found(mem, wal, range), History(wal))
    ensures forall k :: k in Found(mem, wal, range)
                   <==> range.Contains(k) && (k in FullLog(wal) || k in mem.cache.entries)
    ensures forall k | k in Found(mem, wal, range) && k > Floor(wal) ::
              k in FullLog(wal) && Found(mem, wal, range)[k] == FullLog(wal)[k]
  {
    RangeScanIsFilteredReplay(wal, range);
    LogAboveFloor(wal);
  }

  ghost predicate AboveSnapshots(range: Range, wal: seq<Record>) {
    forall k: nat | range.Contains(k) :: k > Floor(wal)
  }

  /** The read is the log exactly when every cached index in the range is in the log,
      which is always so for a range above the installed snapshots. */
  lemma FoundIsLog(cfg: Config, mem: Memory, wal: seq<Record>, range: Range)
    requires CacheAgrees(cfg, mem.cache, wal)
    ensures Found(mem, wal, range) == Restrict(FullLog(wal), range)
       <==> forall k | k in mem.cache.entries && range.Contains(k) :: k in FullLog(wal)
    ensures AboveSnapshots(range, wal) ==> Found(mem, wal, range) == Restrict(FullLog(wal), range)
  {
    FoundMeaning(cfg, mem, wal, range);
    LogAboveFloor(wal);
    var found, log := Found(mem, wal, range), Restrict(FullLog(wal), range);
    assert Sub(log, History(wal));
    forall k | k in found && k in log
      ensures found[k] == log[k]
    {
      assert found[k] == History(wal)[k];
    }
    if forall k | k in mem.cache.entries && range.Contains(k) :: k in FullLog(wal) {
      assert found == log;
    }
    if found == log {
      forall k | k in mem.cache.entries && range.Contains(k)
        ensures k in FullLog(wal)
      {
        assert k in found;
      }
    }
  }

  /** In every run, with every cache capacity, a read above the installed snapshots returns
      the log in that range: by increasing index, every entry once. */
  lemma ReadsAreTheLog(cfg: Config, ops: seq<Op>, range: Range)
    requires AboveSnapshots(range, Run(cfg, ops).wal)
    ensures var s := Run(cfg, ops);
            Lists(ReadFn(cfg, s, range).1, Restrict(FullLog(s.wal), range))
  {
    var s := Run(cfg, ops);
    RunsAgreeWithWal(cfg, ops);
    FoundIsLog(cfg, s.mem, s.wal, range);
    FoundMeaning(cfg, s.mem, s.wal, range);
    ListingLists(Found(s.mem, s.wal, range));
  }

  /** A read of any range returns what the scan or the cache holds, and above the floor
      nothing but the log. */
  lemma ReadsOfAnyRange(cfg: Config, ops: seq<Op>, range: Range)
    ensures var s := Run(cfg, ops);
            var found := Found(s.mem, s.wal, range);
            && Lists(ReadFn(cfg, s, range).1, found)
            && (forall k :: k in found <==> range.Contains(k) && (k in FullLog(s.wal) || k in s.mem.cache.entries))
            && (forall k | k in found && k > Floor(s.wal) :: k in FullLog(s.wal) && found[k] == FullLog(s.wal)[k])
  {
    var s := Run(cfg, ops);
    RunsAgreeWithWal(cfg, ops);
    FoundMeaning(cfg, s.mem, s.wal, range);
    ListingLists(Found(s.mem, s.wal, range));
  }

  /** With room in the cache, an appended entry is cached. */
  lemma AppendCaches(cfg: Config, s: Store, e: Entry)
    requires Agrees(cfg, s) && cfg.capacity > 0
    ensures e.id.index in AppendFn(cfg, s, [e]).mem.cache.entries
  {
    var one := [e];
    assert one[..0] == [] && AppendEach(cfg, s, one) == AppendOne(cfg, s, e);
    InsertIsMostRecent(s.mem.cache, e, cfg.capacity);
    InsertKeepsValid(s.mem.cache, e, cfg.capacity);
    var c := Insert(s.mem.cache, e, cfg.capacity);
    assert AppendFn(cfg, s, one).mem.cache == c;
    assert c.order[|c.order| - 1] in c.order;
  }

  /** At or below the floor a read can return more than the log: an installed snapshot
      drops entries from the scan and leaves them in the cache. */
  lemma InstallLeavesCache(cfg: Config, s: Store, meta: SnapshotMeta, k: nat)
    requires k in s.mem.cache.entries
    requires meta.lastLogId.Some? && k <= meta.lastLogId.value.index
    ensures var s' := InstallFn(cfg, s, meta, true);
            && k !in FullLog(s'.wal)
            && k in Found(s'.mem, s'.wal, EVERYTHING)
            && s'.mem.cache == s.mem.cache
  {
    Snoc(s.wal, SnapshotApplied(meta));
    assert k in Restrict(s.mem.cache.entries, EVERYTHING);
  }

  // ------------------------------------------------------------------ recovery

  /** Replay fails exactly when a checkpoint's snapshot file is missing; otherwise the
      rebuilt memory agrees with the WAL.  This holds for the WAL of any run cut at any
      record, so also for one that lost an unsynced tail. */
  lemma {:induction false} RecoveredAgrees(cfg: Config, wal: seq<Record>, files: set<string>)
    ensures Recover(cfg, wal, files).Some? <==> FilesPresent(cfg, wal, files)
    ensures Recover(cfg, wal, files).Some? ==>
              var mem := Recover(cfg, wal, files).value;
              CacheAgrees(cfg, mem.cache, wal) && FieldsAgree(cfg, mem, wal) && AppliedAgrees(mem, wal)
  {
    if wal != [] {
      var before, last := wal[..|wal| - 1], wal[|wal| - 1];
      assert wal == before + [last];
      RecoveredAgrees(cfg, before, files);
      FilesSnoc(cfg, before, last, files);
      if Recover(cfg, wal, files).Some? {
        var mem := Recover(cfg, before, files).value;
        EffectKeepsCache(cfg, mem, before, last);
        EffectKeepsFields(cfg, mem, before, last);
      }
    }
  }

  lemma FilesSnoc(cfg: Config, wal: seq<Record>, r: Record, files: set<string>)
    ensures FilesPresent(cfg, wal + [r], files)
       <==> FilesPresent(cfg, wal, files) && (r.SnapshotApplied? ==> SnapshotPath(cfg, r.meta) in files)
  {
    var all := wal + [r];
    if FilesPresent(cfg, all, files) {
      forall i | 0 <= i < |wal|
        ensures wal[i].SnapshotApplied? ==> SnapshotPath(cfg, wal[i].meta) in files
      {
        assert all[i] == wal[i];
      }
      assert all[|wal|] == r;
    }
  }

  /** Recovering from the WAL of any run restores the vote, the purge and snapshot state,
      the applied state unless `apply` moved it, and every read above the snapshots. */
  lemma RecoveryRestores(cfg: Config, ops: seq<Op>, range: Range)
    ensures var s := Run(cfg, ops);
            var r := Recover(cfg, s.wal, s.files);
            && r.Some?
            && r.value.vote == s.mem.vote
            && r.value.purged == s.mem.purged
            && r.value.meta == s.mem.meta
            && r.value.path == s.mem.path
            && ((forall i | 0 <= i < |ops| :: !ops[i].OpApply?) ==>
                  r.value.applied == s.mem.applied && r.value.membership == s.mem.membership)
            && (AboveSnapshots(range, s.wal) ==>
                  ReadFn(cfg, s.(mem := r.value), range).1 == ReadFn(cfg, s, range).1)
  {
    var s := Run(cfg, ops);
    RunsAgreeWithWal(cfg, ops);
    RecoveredAgrees(cfg, s.wal, s.files);
    var mem := Recover(cfg, s.wal, s.files).value;
    FoundIsLog(cfg, s.mem, s.wal, range);
    FoundIsLog(cfg, mem, s.wal, range);
  }

  // ------------------------------------------------------------------ the last log id

  ghost predicate GreatestIn(k: nat, log: Log) {
    k in log && forall j | j in log :: j <= k
  }

  /** `k` is cached although a snapshot has taken it out of the log. */
  ghost predicate Outlives(c: Cache, wal: seq<Record>, k: nat) {
    k in c.entries && k !in FullLog(wal) && k <= Floor(wal)
  }

  /** The cache's greatest entry is the log's last exactly when the cache holds the log's last
      and nothing later that a snapshot covers; and then it is the same entry.  Otherwise it
      is an earlier one or such a covered one. */
  lemma LastCachedIsLast(cfg: Config, c: Cache, wal: seq<Record>, last: nat)
    requires CacheAgrees(cfg, c, wal) && GreatestIn(last, FullLog(wal))
    ensures GreatestIn(last, c.entries) <==> last in c.entries && forall k: nat | Outlives(c, wal, k) :: k < last
    ensures last in c.entries && last > Floor(wal) ==> c.entries[last] == FullLog(wal)[last]
    ensures !GreatestIn(last, c.entries) && c.entries != map[] ==>
              exists k: nat :: GreatestIn(k, c.entries) && (k < last || Outlives(c, wal, k))
  {
    LogAboveFloor(wal);
    forall k | k in c.entries && k > last
      ensures Outlives(c, wal, k)
    {
      assert k in History(wal);
    }
    if c.entries != map[] {
      GreatestIsCached(c);
    }
  }

  lemma GreatestIsCached(c: Cache)
    requires c.entries != map[]
    ensures exists k: nat :: GreatestIn(k, c.entries)
  {
    GreatestExists(c.entries.Keys);
    var k: nat :| k in c.entries.Keys && forall j | j in c.entries.Keys :: j <= k;
    assert GreatestIn(k, c.entries);
  }

  /** When the log is empty, what is cached is what snapshots cover. */
  lemma EmptyLogLastId(cfg: Config, c: Cache, wal: seq<Record>, k: nat)
    requires CacheAgrees(cfg, c, wal) && FullLog(wal) == map[] && k in c.entries
    ensures Outlives(c, wal, k)
  {
    LogAboveFloor(wal);
    assert k in History(wal);
  }

  lemma {:induction false} GreatestExists(s: set<nat>)
    requires s != {}
    ensures exists k: nat :: k in s && forall j | j in s :: j <= k
    decreases |s|
  {
    var a :| a in s;
    if s == {a} {
      assert a in s && forall j | j in s :: j <= a;
    } else {
      var rest := s - {a};
      assert rest != {};
      GreatestExists(rest);
      var b: nat :| b in rest && forall j | j in rest :: j <= b;
      assert forall j | j in s :: j == a || j in rest;
      var k := if a < b then b else a;
      assert k in s && forall j | j in s :: j <= k;
    }
  }

  /** A read can push the last entry out: with room for one, reading an older entry leaves
      that one as the only cached entry. */
  lemma ReadEvictsLast(cfg: Config, s: Store, k: nat)
    requires LogCache.Valid(s.mem.cache) && cfg.capacity == 1 && k in FullLog(s.wal) && k !in s.mem.cache.entries
    ensures ReadFn(cfg, s, Range(Included(k), Included(k))).0.mem.cache.entries.Keys == {k}
  {
    var range, c := Range(Included(k), Included(k)), s.mem.cache;
    var e := FullLog(s.wal)[k];
    ScanOfOne(s.wal, k);
    assert Restrict(c.entries, range) == map[];
    OneListed(k, e);
    OneUnseen(e);
    OneInserted(c, e);
    TouchAllKeepsValid(InsertAll(c, [e], 1), Listing(Found(s.mem, s.wal, range)));
  }

  lemma ScanOfOne(wal: seq<Record>, k: nat)
    requires k in FullLog(wal)
    ensures Replay(wal, Range(Included(k), Included(k))) == map[k := FullLog(wal)[k]]
    ensures FullLog(wal)[k].id.index == k
  {
    RangeScanIsFilteredReplay(wal, Range(Included(k), Included(k)));
    LogAboveFloor(wal);
  }

  lemma OneListed(k: nat, e: Entry)
    ensures Listing(map[k := e]) == [e]
  {
    var log := map[k := e];
    assert log.Keys == {k} && k in log.Keys;
    assert Least(log.Keys) == k;
    assert log - {k} == map[];
  }

  lemma OneUnseen(e: Entry)
    ensures Unseen([e], map[]) == [e]
  {
    assert [e][..0] == [];
  }

  /** With room for one, the entry just inserted is the only one. */
  lemma OneInserted(c: Cache, e: Entry)
    requires LogCache.Valid(c)
    ensures InsertAll(c, [e], 1) == Insert(c, e, 1)
    ensures LogCache.Valid(Insert(c, e, 1)) && Insert(c, e, 1).entries.Keys == {e.id.index}
  {
    assert [e][..0] == [];
    InsertKeepsValid(c, e, 1);
    InsertIsMostRecent(c, e, 1);
    OnlyOneCached(Insert(c, e, 1), e.id.index);
  }

  lemma OnlyOneCached(c: Cache, k: nat)
    requires LogCache.Valid(c) && |c.entries| <= 1 && c.order != [] && c.order[|c.order| - 1] == k
    ensures c.entries.Keys == {k}
  {
    ValidIsSized(c);
    assert c.order == [k];
    assert forall j :: j in c.entries <==> j in c.order;
  }

  /** The log ends at `last` and holds the earlier `k`, which is not cached. */
  ghost predicate Behind(s: Store, k: nat, last: nat) {
    LogCache.Valid(s.mem.cache) && k !in s.mem.cache.entries && k in FullLog(s.wal) && GreatestIn(last, FullLog(s.wal))
  }

  /** The cache ends at `cached` although the log ends at `last`. */
  ghost predicate Lags(s: Store, cached: nat, last: nat) {
    GreatestIn(cached, s.mem.cache.entries) && GreatestIn(last, FullLog(s.wal))
  }

  lemma LagsAfterRead(cfg: Config, s: Store, k: nat, last: nat)
    requires cfg.capacity == 1 && Behind(s, k, last)
    ensures Lags(ReadFn(cfg, s, Range(Included(k), Included(k))).0, k, last)
  {
    ReadEvictsLast(cfg, s, k);
    OnlyKeyIsGreatest(k, ReadFn(cfg, s, Range(Included(k), Included(k))).0.mem.cache.entries);
  }

  lemma OnlyKeyIsGreatest(k: nat, log: Log)
    requires log.Keys == {k}
    ensures GreatestIn(k, log)
  {
    assert k in log.Keys;
  }

  /** With room for one entry, appending two and reading the first makes the storage report
      the first as the last. */
  lemma LastLogIdCanLag(cfg: Config, first: Entry, second: Entry) returns (ops: seq<Op>)
    requires cfg.capacity == 1 && first.id.index < second.id.index
    ensures Lags(Run(cfg, ops), first.id.index, second.id.index)
  {
    var none: seq<Op> := [];
    var append := none + [OpAppend([first, second])];
    RunSnoc(cfg, none, OpAppend([first, second]));
    TwoAppended(cfg, first, second);
    var read := OpRead(Range(Included(first.id.index), Included(first.id.index)));
    ops := append + [read];
    RunSnoc(cfg, append, read);
    LagsAfterRead(cfg, Run(cfg, append), first.id.index, second.id.index);
  }

  /** An append and an installed snapshot that covers it leave an empty log, and yet the entry
      is still read, and reported as the last. */
  lemma CacheOutlivesSnapshot(cfg: Config, e: Entry, meta: SnapshotMeta) returns (ops: seq<Op>)
    requires cfg.capacity > 0 && meta.lastLogId.Some? && e.id.index <= meta.lastLogId.value.index
    ensures var s := Run(cfg, ops);
            && FullLog(s.wal) == map[]
            && e.id.index in Found(s.mem, s.wal, EVERYTHING)
            && GreatestIn(e.id.index, s.mem.cache.entries)
  {
    var none: seq<Op> := [];
    var append := none + [OpAppend([e])];
    RunSnoc(cfg, none, OpAppend([e]));
    ops := append + [OpInstall(meta, true)];
    RunSnoc(cfg, append, OpInstall(meta, true));
    OneAppended(cfg, e);
    var s := Run(cfg, append);
    InstallLeavesCache(cfg, s, meta, e.id.index);
    OnlyKeyIsGreatest(e.id.index, s.mem.cache.entries);
    CoveredLogIsEmpty(e, meta);
  }

  lemma OneAppended(cfg: Config, e: Entry)
    requires cfg.capacity > 0
    ensures var s := AppendFn(cfg, EMPTY_STORE, [e]);
            s.wal == [AppendLog(e)] && s.mem.cache.entries.Keys == {e.id.index}
  {
    var none: seq<Entry> := [];
    AppendEachSnoc(cfg, EMPTY_STORE, none, e);
    assert none + [e] == [e];
    FirstInserted(EMPTY_STORE.mem.cache, e, cfg.capacity);
  }

  lemma FirstInserted(c: Cache, e: Entry, capacity: nat)
    requires LogCache.Valid(c) && c.entries == map[] && capacity > 0
    ensures Insert(c, e, capacity).entries.Keys == {e.id.index}
  {
    InsertKeepsValid(c, e, capacity);
    InsertIsMostRecent(c, e, capacity);
    var c' := Insert(c, e, capacity);
    assert c'.order[|c'.order| - 1] in c'.order;
  }

  lemma CoveredLogIsEmpty(e: Entry, meta: SnapshotMeta)
    requires meta.lastLogId.Some? && e.id.index <= meta.lastLogId.value.index
    ensures FullLog([AppendLog(e)] + [SnapshotApplied(meta)]) == map[]
  {
    var none: seq<Record> := [];
    FullLogSnoc(none, AppendLog(e));
    assert none + [AppendLog(e)] == [AppendLog(e)];
    FullLogSnoc([AppendLog(e)], SnapshotApplied(meta));
  }

  lemma RunSnoc(cfg: Config, ops: seq<Op>, op: Op)
    ensures Run(cfg, ops + [op]) == Step(cfg, Run(cfg, ops), op)
  {
    assert (ops + [op])[..|ops|] == ops;
  }

  lemma TwoAppended(cfg: Config, first: Entry, second: Entry)
    requires cfg.capacity == 1 && first.id.index < second.id.index
    ensures Behind(AppendFn(cfg, EMPTY_STORE, [first, second]), first.id.index, second.id.index)
  {
    var s1 := AppendOne(cfg, EMPTY_STORE, first);
    AppendedOne(cfg, EMPTY_STORE, first);
    AppendedOne(cfg, s1, second);
    AppendTwo(cfg, first, second);
    TwoLogged(first, second);
    assert s1.wal == [AppendLog(first)];
    var s2 := AppendOne(cfg, s1, second);
    assert s2.wal == [AppendLog(first), AppendLog(second)];
    assert first.id.index !in s2.mem.cache.entries.Keys;
  }

  lemma AppendTwo(cfg: Config, first: Entry, second: Entry)
    ensures var s := AppendFn(cfg, EMPTY_STORE, [first, second]);
            var s' := AppendOne(cfg, AppendOne(cfg, EMPTY_STORE, first), second);
            s.wal == s'.wal && s.mem == s'.mem
  {
    var none: seq<Entry> := [];
    AppendEachSnoc(cfg, EMPTY_STORE, none, first);
    AppendEachSnoc(cfg, EMPTY_STORE, none + [first], second);
    assert none + [first] + [second] == [first, second];
  }

  lemma AppendEachSnoc(cfg: Config, s: Store, entries: seq<Entry>, e: Entry)
    ensures AppendEach(cfg, s, entries + [e]) == AppendOne(cfg, AppendEach(cfg, s, entries), e)
  {
    assert (entries + [e])[..|entries|] == entries;
  }

  lemma AppendedOne(cfg: Config, s: Store, e: Entry)
    requires cfg.capacity == 1 && LogCache.Valid(s.mem.cache)
    ensures var s' := AppendOne(cfg, s, e);
            && s'.wal == s.wal + [AppendLog(e)]
            && LogCache.Valid(s'.mem.cache) && s'.mem.cache.entries.Keys == {e.id.index}
  {
    OneInserted(s.mem.cache, e);
  }

  lemma TwoLogged(first: Entry, second: Entry)
    requires first.id.index < second.id.index
    ensures var log := FullLog([AppendLog(first), AppendLog(second)]);
            first.id.index in log && GreatestIn(second.id.index, log)
  {
    var none: seq<Record> := [];
    FullLogSnoc(none, AppendLog(first));
    FullLogSnoc(none + [AppendLog(first)], AppendLog(second));
    assert none + [AppendLog(first)] + [AppendLog(second)] == [AppendLog(first), AppendLog(second)];
  }

  lemma FullLogSnoc(wal: seq<Record>, r: Record)
    ensures FullLog(wal + [r]) == ReplayStep(FullLog(wal), r, EVERYTHING)
  {
    Snoc(wal, r);
  }
}
