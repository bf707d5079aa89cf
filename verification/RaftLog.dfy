/**
 The Raft log as the write-ahead log records it: WAL records, the log that
 replaying them gives, and entries listed by index.  From
 crates/chirps-raft-storage/src/wal_storage.rs.
 */
module RaftLog {
  import opened Prelude

  datatype LogId = LogId(term: nat, node: nat, index: nat)

  datatype Payload = Blank | Normal(command: seq<Byte>) | Membership(members: set<nat>)

  datatype Entry = Entry(id: LogId, payload: Payload)

  datatype StoredMembership = StoredMembership(id: Option<LogId>, members: set<nat>)

  datatype SnapshotMeta = SnapshotMeta(lastLogId: Option<LogId>, membership: StoredMembership, snapshotId: string)

  datatype Vote = Vote(term: nat, node: nat, committed: bool)

  datatype Record =
    | AppendLog(entry: Entry)
    | SaveVote(vote: Vote)
    | SnapshotApplied(meta: SnapshotMeta)
    | Truncate(id: LogId)
    | Purge(id: LogId)

  type Log = map<nat, Entry>

  // ------------------------------------------------------------------ ranges

  datatype Bound = Included(value: nat) | Excluded(value: nat) | Unbounded

  datatype Range = Range(start: Bound, end: Bound) {
    /** `range_contains`. */
    predicate Contains(k: nat) {
      && match start {
           case Included(v) => k >= v
           case Excluded(v) => k > v
           case Unbounded => true
         }
      && match end {
           case Included(v) => k <= v
           case Excluded(v) => k < v
           case Unbounded => true
         }
    }

    /** What `BTreeMap::range` demands: it panics on any other range. */
    predicate Ordered() {
      || start.Unbounded?
      || end.Unbounded?
      || start.value < end.value
      || (start.value == end.value && !(start.Excluded? && end.Excluded?))
    }
  }

  const EVERYTHING := Range(Unbounded, Unbounded)

  function Restrict(log: Log, range: Range): Log {
    map k | k in log && range.Contains(k) :: log[k]
  }

  function UpTo(log: Log, index: nat): Log {
    map k | k in log && k <= index :: log[k]
  }

  function After(log: Log, index: nat): Log {
    map k | k in log && k > index :: log[k]
  }

  ghost predicate Sub(a: Log, b: Log) {
    forall k | k in a :: k in b && a[k] == b[k]
  }

  ghost predicate Keyed(log: Log) {
    forall k | k in log :: log[k].id.index == k
  }

  // ------------------------------------------------------------------ replay

  /** One record of the scan in `read_entries_from_wal`. */
  function ReplayStep(log: Log, r: Record, range: Range): Log {
    match r
    case AppendLog(e) => if range.Contains(e.id.index) then log[e.id.index := e] else log
    case Truncate(id) => UpTo(log, id.index)
    case Purge(id) => After(log, id.index)
    case SnapshotApplied(meta) => if meta.lastLogId.Some? then After(log, meta.lastLogId.value.index) else log
    case SaveVote(_) => log
  }

  /** What the scan has collected at the end of the WAL. */
  function Replay(wal: seq<Record>, range: Range): Log {
    if wal == [] then map[]
    else ReplayStep(Replay(wal[..|wal| - 1], range), wal[|wal| - 1], range)
  }

  /** The log: the scan without a range. */
  function FullLog(wal: seq<Record>): Log {
    Replay(wal, EVERYTHING)
  }

  /** Everything appended and not truncated or purged, snapshots or not. */
  function History(wal: seq<Record>): Log {
    if wal == [] then map[]
    else
      var last := wal[|wal| - 1];
      var before := History(wal[..|wal| - 1]);
      if last.SnapshotApplied? then before else ReplayStep(before, last, EVERYTHING)
  }

  /** The largest index covered by an installed snapshot, or -1. */
  function Floor(wal: seq<Record>): int {
    if wal == [] then -1
    else
      var last := wal[|wal| - 1];
      var before := Floor(wal[..|wal| - 1]);
      if last.SnapshotApplied? && last.meta.lastLogId.Some? && last.meta.lastLogId.value.index > before
      then last.meta.lastLogId.value.index else before
  }

  lemma Snoc(wal: seq<Record>, r: Record)
    ensures (wal + [r])[..|wal + [r]| - 1] == wal && (wal + [r])[|wal + [r]| - 1] == r
  {
  }

  /** Scanning only a range collects exactly that part of the whole log. */
  lemma {:induction false} RangeScanIsFilteredReplay(wal: seq<Record>, range: Range)
    ensures Replay(wal, range) == Restrict(FullLog(wal), range)
  {
    if wal != [] {
      var before, last := wal[..|wal| - 1], wal[|wal| - 1];
      RangeScanIsFilteredReplay(before, range);
      StepCommutes(FullLog(before), last, range);
    }
  }

  lemma StepCommutes(log: Log, r: Record, range: Range)
    ensures ReplayStep(Restrict(log, range), r, range) == Restrict(ReplayStep(log, r, EVERYTHING), range)
  {
  }

  /** The record at `i` appended entry `e`, and no later record replaced or dropped it. */
  ghost predicate Survives(wal: seq<Record>, i: nat, e: Entry) {
    && i < |wal|
    && wal[i] == AppendLog(e)
    && forall j | i < j < |wal| :: !Drops(wal[j], e.id.index)
  }

  /** After this record, index `k` no longer holds what it held. */
  predicate Drops(r: Record, k: nat) {
    match r
    case AppendLog(e) => e.id.index == k
    case Truncate(id) => id.index < k
    case Purge(id) => k <= id.index
    case SnapshotApplied(meta) => meta.lastLogId.Some? && k <= meta.lastLogId.value.index
    case SaveVote(_) => false
  }

  /** The log holds exactly the surviving appends. */
  lemma {:induction false} LogHoldsSurvivors(wal: seq<Record>, k: nat, e: Entry)
    ensures (k in FullLog(wal) && FullLog(wal)[k] == e) <==> (e.id.index == k && exists i: nat :: Survives(wal, i, e))
  {
    if wal != [] {
      var before, last := wal[..|wal| - 1], wal[|wal| - 1];
      LogHoldsSurvivors(before, k, e);
      if exists i: nat :: Survives(wal, i, e) {
        var i: nat :| Survives(wal, i, e);
        if i < |before| {
          assert Survives(before, i, e);
          assert !Drops(last, e.id.index);
        }
      }
      if last == AppendLog(e) {
        assert Survives(wal, |before|, e);
      }
      if !Drops(last, e.id.index) && exists i: nat :: Survives(before, i, e) {
        var i: nat :| Survives(before, i, e);
        assert Survives(wal, i, e);
      }
    }
  }

  /** Snapshots only hide entries at or below the floor. */
  lemma {:induction false} LogAboveFloor(wal: seq<Record>)
    ensures Sub(FullLog(wal), History(wal)) && Keyed(History(wal))
    ensures forall k | k in History(wal) && k > Floor(wal) :: k in FullLog(wal)
  {
    if wal != [] {
      LogAboveFloor(wal[..|wal| - 1]);
    }
  }

  // ------------------------------------------------------------------ entries in index order

  ghost predicate LeastIn(k: nat, s: set<nat>) {
    k in s && forall x | x in s :: k <= x
  }

  lemma {:induction false} LeastExists(s: set<nat>)
    requires s != {}
    ensures exists k :: LeastIn(k, s)
    decreases |s|
  {
    var a :| a in s;
    var rest := s - {a};
    if rest == {} {
      assert s == {a};
      assert LeastIn(a, s);
    } else {
      LeastExists(rest);
      var b :| LeastIn(b, rest);
      assert forall x | x in s :: x == a || x in rest;
      assert LeastIn(if a < b then a else b, s);
    }
  }

  ghost function Least(s: set<nat>): (k: nat)
    requires s != {}
    ensures LeastIn(k, s)
  {
    LeastExists(s);
    var k :| LeastIn(k, s);
    k
  }

  /** The entries of a log in index order, as a `BTreeMap` iterates them. */
  ghost function Listing(log: Log): seq<Entry>
    decreases |log|
  {
    if log == map[] then []
    else
      var k := Least(log.Keys);
      [log[k]] + Listing(log - {k})
  }

  ghost predicate Ascending(list: seq<Entry>) {
    forall i, j | 0 <= i < j < |list| :: list[i].id.index < list[j].id.index
  }

  ghost predicate Has(list: seq<Entry>, k: nat) {
    exists i :: 0 <= i < |list| && list[i].id.index == k
  }

  /** `list` holds exactly the entries of `log`, each once, by increasing index. */
  ghost predicate Lists(list: seq<Entry>, log: Log) {
    && Ascending(list)
    && (forall i | 0 <= i < |list| :: list[i].id.index in log && log[list[i].id.index] == list[i])
    && (forall k | k in log :: Has(list, k))
  }

  lemma {:induction false} ListingLists(log: Log)
    requires Keyed(log)
    ensures Lists(Listing(log), log)
    decreases |log|
  {
    if log != map[] {
      var k := Least(log.Keys);
      ListingLists(log - {k});
      ConsLists(k, Listing(log - {k}), log);
    }
  }

  lemma ConsLists(k: nat, rest: seq<Entry>, log: Log)
    requires Keyed(log) && LeastIn(k, log.Keys) && Lists(rest, log - {k})
    ensures Lists([log[k]] + rest, log)
  {
    var list := [log[k]] + rest;
    assert forall i | 0 <= i < |rest| :: k < rest[i].id.index;
    ConsAscending(log[k], rest);
    forall x | x in log
      ensures Has(list, x)
    {
      if x != k {
        assert Has(rest, x);
      }
      ConsHas(log[k], rest, x);
    }
    forall i | 0 <= i < |list|
      ensures list[i].id.index in log && log[list[i].id.index] == list[i]
    {
      if i > 0 {
        assert list[i] == rest[i - 1];
      }
    }
  }

  lemma ConsAscending(e: Entry, rest: seq<Entry>)
    requires Ascending(rest) && forall i | 0 <= i < |rest| :: e.id.index < rest[i].id.index
    ensures Ascending([e] + rest)
  {
  }

  lemma ConsHas(e: Entry, rest: seq<Entry>, k: nat)
    requires e.id.index == k || Has(rest, k)
    ensures Has([e] + rest, k)
  {
    var list := [e] + rest;
    if e.id.index == k {
      assert list[0].id.index == k;
    } else {
      var i :| 0 <= i < |rest| && rest[i].id.index == k;
      assert list[i + 1].id.index == k;
    }
  }

  /** Insert into a list in index order. */
  function InsertSorted(list: seq<Entry>, e: Entry): seq<Entry> {
    if list == [] || e.id.index < list[0].id.index then [e] + list
    else [list[0]] + InsertSorted(list[1..], e)
  }

  lemma {:induction false} InsertIntoListing(log: Log, e: Entry)
    requires Keyed(log) && e.id.index !in log
    ensures InsertSorted(Listing(log), e) == Listing(log[e.id.index := e])
    decreases |log|
  {
    var log' := log[e.id.index := e];
    assert e.id.index in log'.Keys;
    var k' := Least(log'.Keys);
    if log == map[] {
      assert log'.Keys == {e.id.index};
      assert log' - {k'} == map[];
    } else {
      var k := Least(log.Keys);
      if e.id.index < k {
        assert forall x | x in log' :: x == e.id.index || x in log.Keys;
        assert log' - {k'} == log;
      } else {
        assert k in log'.Keys;
        assert k' == k;
        assert log' - {k} == (log - {k})[e.id.index := e];
        InsertIntoListing(log - {k}, e);
      }
    }
  }
}
