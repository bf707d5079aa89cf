/**
 Verified snapshot transfer (crates/alopex-chirps/src/snapshot.rs): a snapshot
 is cut into chunks, sent in any order, and reassembled by a receiver that
 checks every chunk and the whole.  The digest function is a parameter.
 */
module SnapshotTransfer {
  import opened Prelude

  type Digest = seq<nat>
  type Hash = seq<Byte> -> Digest

  datatype Error = InvalidConfig | InvalidManifest | Integrity

  datatype Manifest = Manifest(id: string, totalLen: nat, chunkSize: nat, chunkCount: nat, digest: Digest)

  datatype Chunk = Chunk(id: string, index: nat, offset: nat, data: seq<Byte>, digest: Digest)

  datatype VerifiedSnapshot = VerifiedSnapshot(id: string, bytes: seq<Byte>, digest: Digest)

  // --------------------------------------------------------------- sending side

  /** `SnapshotManifest::from_bytes`. */
  function Describe(sha: Hash, id: string, bytes: seq<Byte>, chunkSize: nat): Result<Manifest, Error> {
    if chunkSize == 0 || chunkSize > U32_MAX then Failure(InvalidConfig)
    else
      var count := CeilDiv(Max(|bytes|, 1), chunkSize);
      if count > U32_MAX then Failure(InvalidManifest)
      else Success(Manifest(id, |bytes|, chunkSize, count, sha(bytes)))
  }

  /** `build_chunk`. */
  function BuildChunk(sha: Hash, m: Manifest, bytes: seq<Byte>, index: nat): Result<Chunk, Error> {
    if bytes == [] then Success(Chunk(m.id, 0, 0, [], sha([])))
    else
      var start := index * m.chunkSize;
      var end := Min(start + m.chunkSize, |bytes|);
      if start > end then Failure(InvalidManifest)
      else
        var data := bytes[start..end];
        Success(Chunk(m.id, index, start, data, sha(data)))
  }

  // ------------------------------------------------------------- receiving side

  predicate ValidManifest(m: Manifest) {
    && m.id != "" && m.chunkSize != 0 && m.chunkCount != 0
    && CeilDiv(Max(m.totalLen, 1), m.chunkSize) == m.chunkCount
  }

  /** The length chunk `index` must have. */
  function ChunkLen(m: Manifest, index: nat): nat {
    Min(SatSub(m.totalLen, index * m.chunkSize), m.chunkSize)
  }

  /** `validate_chunk`: None when the chunk is acceptable. */
  function ValidateChunk(sha: Hash, m: Manifest, c: Chunk): Option<Error> {
    if c.id != m.id || c.index >= m.chunkCount then Some(InvalidManifest)
    else if c.offset != c.index * m.chunkSize then Some(InvalidManifest)
    else if |c.data| != ChunkLen(m, c.index) then Some(InvalidManifest)
    else if sha(c.data) != c.digest then Some(Integrity)
    else None
  }

  datatype Receiver = Receiver(manifest: Manifest, bytes: seq<Byte>, received: seq<bool>,
                               verifiedChunks: nat, verifiedBytes: nat) {
    ghost predicate Shaped() {
      && ValidManifest(manifest)
      && |bytes| == manifest.totalLen
      && |received| == manifest.chunkCount
    }
  }

  function Zeros(n: nat): seq<Byte> {
    seq(n, i => 0)
  }

  function Unreceived(n: nat): seq<bool> {
    seq(n, i => false)
  }

  function NewReceiver(m: Manifest): Receiver {
    Receiver(m, Zeros(m.totalLen), Unreceived(m.chunkCount), 0, 0)
  }

  /** A valid chunk lies inside the buffer. */
  lemma ChunkFits(m: Manifest, index: nat)
    requires ValidManifest(m) && index < m.chunkCount
    ensures index * m.chunkSize + ChunkLen(m, index) <= m.totalLen
    ensures index * m.chunkSize <= m.totalLen
  {
    CeilDivMeaning(Max(m.totalLen, 1), m.chunkSize);
    MulMonotone(index, m.chunkCount - 1, m.chunkSize);
  }

  lemma MulMonotone(a: nat, b: nat, c: nat)
    requires a <= b
    ensures a * c <= b * c
  {
    assert b * c == a * c + (b - a) * c;
  }

  function Overwrite(bytes: seq<Byte>, start: nat, data: seq<Byte>): (r: seq<Byte>)
    requires start + |data| <= |bytes|
    ensures |r| == |bytes|
  {
    bytes[..start] + data + bytes[start + |data|..]
  }

  /** `accept`. */
  ghost function AcceptFn(sha: Hash, r: Receiver, c: Chunk): (Receiver, Option<Error>)
    requires r.Shaped()
  {
    var verdict := ValidateChunk(sha, r.manifest, c);
    if verdict.Some? then (r, verdict)
    else
      ChunkFits(r.manifest, c.index);
      if r.received[c.index] then
        (r, if r.bytes[c.offset..c.offset + |c.data|] == c.data then None else Some(Integrity))
      else
        (r.(bytes := Overwrite(r.bytes, c.offset, c.data),
            received := r.received[c.index := true],
            verifiedChunks := r.verifiedChunks + 1,
            verifiedBytes := r.verifiedBytes + |c.data|), None)
  }

  /** `verify_complete` and `into_verified`. */
  ghost function VerifyFn(sha: Hash, r: Receiver, id: string): Result<VerifiedSnapshot, Error> {
    if id != r.manifest.id then Failure(InvalidManifest)
    else if r.verifiedChunks != r.manifest.chunkCount then Failure(InvalidManifest)
    else if |r.bytes| != r.manifest.totalLen then Failure(Integrity)
    else if sha(r.bytes) != r.manifest.digest then Failure(Integrity)
    else Success(VerifiedSnapshot(r.manifest.id, r.bytes, r.manifest.digest))
  }

  class SnapshotReceiver {
    const sha: Hash
    const manifest: Manifest
    const bytes: array<Byte>
    const received: array<bool>
    var verifiedChunks: nat
    var verifiedBytes: nat

    ghost function View(): Receiver
      reads this, bytes, received
    {
      Receiver(manifest, bytes[..], received[..], verifiedChunks, verifiedBytes)
    }

    ghost predicate Valid()
      reads this, bytes, received
    {
      View().Shaped()
    }

    constructor (sha: Hash, m: Manifest)
      requires ValidManifest(m)
      ensures Valid() && fresh(bytes) && fresh(received)
      ensures this.sha == sha && View() == NewReceiver(m)
    {
      this.sha := sha;
      manifest := m;
      bytes := new Byte[m.totalLen](i => 0);
      received := new bool[m.chunkCount](i => false);
      verifiedChunks := 0;
      verifiedBytes := 0;
      new;
      assert bytes[..] == Zeros(m.totalLen);
      assert received[..] == Unreceived(m.chunkCount);
    }

    /** `SnapshotReceiver::new`: invalid manifests are refused. */
    static method Open(sha: Hash, m: Manifest) returns (r: Result<SnapshotReceiver, Error>)
      ensures r.Success? <==> ValidManifest(m)
      ensures r.Failure? ==> r.error == InvalidManifest
      ensures r.Success? ==> r.value.Valid() && fresh(r.value) && r.value.sha == sha && r.value.View() == NewReceiver(m)
    {
      if m.id == "" || m.chunkSize == 0 || m.chunkCount == 0 {
        return Failure(InvalidManifest);
      }
      if CeilDiv(Max(m.totalLen, 1), m.chunkSize) != m.chunkCount {
        return Failure(InvalidManifest);
      }
      var receiver := new SnapshotReceiver(sha, m);
      r := Success(receiver);
    }

    method Accept(c: Chunk) returns (error: Option<Error>)
      requires Valid()
      modifies this, bytes, received
      ensures Valid() && (View(), error) == AcceptFn(sha, old(View()), c)
    {
      error := ValidateChunk(sha, manifest, c);
      if error.Some? { return; }
      ChunkFits(manifest, c.index);
      var start := c.offset;
      var end := start + |c.data|;
      if received[c.index] {
        error := if bytes[start..end] == c.data then None else Some(Integrity);
        assert bytes[start..end] == bytes[..][start..end];
        return;
      }
      verifiedChunks := verifiedChunks + 1;
      verifiedBytes := verifiedBytes + |c.data|;
      CopyInto(start, c.data);
      received[c.index] := true;
      assert received[..] == old(received[..])[c.index := true];
    }

    /** `copy_from_slice`. */
    method CopyInto(start: nat, data: seq<Byte>)
      requires start + |data| <= bytes.Length
      modifies bytes
      ensures bytes[..] == Overwrite(old(bytes[..]), start, data)
    {
      var i := 0;
      while i < |data|
        invariant 0 <= i <= |data|
        invariant forall k | 0 <= k < bytes.Length ::
                    bytes[k] == if start <= k < start + i then data[k - start] else old(bytes[k])
      {
        bytes[start + i] := data[i];
        i := i + 1;
      }
      assert bytes[..] == Overwrite(old(bytes[..]), start, data);
    }

    method IntoVerified(id: string) returns (r: Result<VerifiedSnapshot, Error>)
      requires Valid()
      ensures r == VerifyFn(sha, View(), id)
    {
      if id != manifest.id { return Failure(InvalidManifest); }
      if verifiedChunks != manifest.chunkCount { return Failure(InvalidManifest); }
      if bytes.Length != manifest.totalLen { return Failure(Integrity); }
      if sha(bytes[..]) != manifest.digest { return Failure(Integrity); }
      r := Success(VerifiedSnapshot(manifest.id, bytes[..], manifest.digest));
    }
  }

  // ------------------------------------------------------------------ deliveries

  ghost function AcceptAll(sha: Hash, r: Receiver, chunks: seq<Chunk>): (r': Receiver)
    requires r.Shaped()
    ensures r'.Shaped()
    decreases |chunks|
  {
    if chunks == [] then r else AcceptAll(sha, AcceptFn(sha, r, chunks[0]).0, chunks[1..])
  }

  ghost function CountTrue(s: seq<bool>): nat {
    if s == [] then 0 else CountTrue(s[..|s| - 1]) + if s[|s| - 1] then 1 else 0
  }

  /** Total length of the chunks marked received. */
  ghost function ReceivedBytes(m: Manifest, s: seq<bool>): nat {
    if s == [] then 0
    else ReceivedBytes(m, s[..|s| - 1]) + if s[|s| - 1] then ChunkLen(m, |s| - 1) else 0
  }

  lemma {:induction false} CountSet(m: Manifest, s: seq<bool>, i: nat)
    requires i < |s| && !s[i]
    ensures CountTrue(s[i := true]) == CountTrue(s) + 1
    ensures ReceivedBytes(m, s[i := true]) == ReceivedBytes(m, s) + ChunkLen(m, i)
    decreases |s|
  {
    var last := |s| - 1;
    if i == last {
      assert s[i := true][..last] == s[..last];
    } else {
      assert s[i := true][..last] == s[..last][i := true];
      CountSet(m, s[..last], i);
    }
  }

  lemma {:induction false} CountFull(s: seq<bool>)
    ensures CountTrue(s) <= |s|
    ensures CountTrue(s) == |s| <==> forall i | 0 <= i < |s| :: s[i]
    decreases |s|
  {
    if s != [] {
      var last := |s| - 1;
      CountFull(s[..last]);
      assert forall i | 0 <= i < last :: s[..last][i] == s[i];
    }
  }

  /** The counters equal the number and the total size of the accepted chunks. */
  ghost predicate Counted(r: Receiver) {
    && r.verifiedChunks == CountTrue(r.received)
    && r.verifiedBytes == ReceivedBytes(r.manifest, r.received)
  }

  /** Whatever arrives, valid or not, the counters stay exact. */
  lemma {:induction false} CountersStayExact(sha: Hash, r: Receiver, chunks: seq<Chunk>)
    requires r.Shaped() && Counted(r)
    ensures Counted(AcceptAll(sha, r, chunks))
    decreases |chunks|
  {
    if chunks != [] {
      var c := chunks[0];
      if ValidateChunk(sha, r.manifest, c).None? && !r.received[c.index] {
        CountSet(r.manifest, r.received, c.index);
      }
      CountersStayExact(sha, AcceptFn(sha, r, c).0, chunks[1..]);
    }
  }

  /** Byte `x` belongs to chunk `i`. */
  ghost predicate Within(m: Manifest, i: nat, x: nat) {
    i * m.chunkSize <= x < i * m.chunkSize + ChunkLen(m, i)
  }

  /** Every received chunk holds the original's bytes. */
  ghost predicate Faithful(r: Receiver, original: seq<Byte>) {
    && |original| == |r.bytes|
    && forall i, x | 0 <= i < |r.received| && r.received[i] && 0 <= x < |r.bytes| && Within(r.manifest, i, x) ::
         r.bytes[x] == original[x]
  }

  /** Every byte belongs to some chunk. */
  lemma ChunksCover(m: Manifest, x: nat, i: nat)
    requires ValidManifest(m) && x < m.totalLen && i == x / m.chunkSize
    ensures i < m.chunkCount && Within(m, i, x)
  {
    ChunkInRange(m, x);
    DivBounds(x, m.chunkSize);
  }

  lemma ChunkInRange(m: Manifest, x: nat)
    requires ValidManifest(m) && x < m.totalLen
    ensures x / m.chunkSize < m.chunkCount
  {
    CeilDivMeaning(Max(m.totalLen, 1), m.chunkSize);
    QuotientBelow(x, m.chunkSize, m.chunkCount);
  }

  lemma QuotientBelow(x: nat, c: nat, count: nat)
    requires c > 0 && x < count * c
    ensures x / c < count
  {
    DivBounds(x, c);
    if count <= x / c {
      MulMonotone(count, x / c, c);
    }
  }

  lemma DivBounds(x: nat, c: nat)
    requires c > 0
    ensures x / c * c <= x < x / c * c + c
  {
    assert x == x / c * c + x % c;
  }

  /** A chunk cut from the original by `build_chunk` for the manifest. */
  ghost predicate GenuineChunk(sha: Hash, m: Manifest, original: seq<Byte>, c: Chunk) {
    exists i :: 0 <= i < m.chunkCount && BuildChunk(sha, m, original, i) == Success(c)
  }

  /** The genuine chunks are exactly one per index, and each passes validation. */
  lemma GenuineIsValid(sha: Hash, m: Manifest, original: seq<Byte>, i: nat)
    requires ValidManifest(m) && m.totalLen == |original| && i < m.chunkCount
    ensures var b := BuildChunk(sha, m, original, i);
            && b.Success? && b.value.index == i
            && ValidateChunk(sha, m, b.value) == None
            && |b.value.data| == ChunkLen(m, i)
            && b.value.offset == i * m.chunkSize
            && b.value.offset + |b.value.data| <= |original|
            && b.value.data == original[b.value.offset..b.value.offset + |b.value.data|]
  {
    ChunkFits(m, i);
    CeilDivMeaning(Max(m.totalLen, 1), m.chunkSize);
    if original == [] {
      assert m.chunkCount == CeilDiv(1, m.chunkSize) == 1;
    }
  }

  /** Writing chunk `i` of the original keeps every received chunk faithful. */
  lemma OverwriteFaithful(r: Receiver, original: seq<Byte>, i: nat, start: nat, data: seq<Byte>)
    requires r.Shaped() && Faithful(r, original) && i < |r.received|
    requires start == i * r.manifest.chunkSize && |data| == ChunkLen(r.manifest, i)
    requires start + |data| <= |original| && data == original[start..start + |data|]
    ensures Faithful(r.(bytes := Overwrite(r.bytes, start, data), received := r.received[i := true]), original)
  {
    var m := r.manifest;
    var r' := r.(bytes := Overwrite(r.bytes, start, data), received := r.received[i := true]);
    forall j, x | 0 <= j < |r'.received| && r'.received[j] && 0 <= x < |r'.bytes| && Within(m, j, x)
      ensures r'.bytes[x] == original[x]
    {
      if start <= x < start + |data| {
        assert r'.bytes[x] == data[x - start];
      } else {
        assert j != i;
        assert r'.bytes[x] == r.bytes[x];
      }
    }
  }

  lemma FaithfulSlice(r: Receiver, original: seq<Byte>, i: nat, start: nat, end: nat)
    requires r.Shaped() && Faithful(r, original) && i < |r.received| && r.received[i]
    requires start == i * r.manifest.chunkSize && end == start + ChunkLen(r.manifest, i) <= |original|
    ensures r.bytes[start..end] == original[start..end]
  {
    forall x | start <= x < end
      ensures r.bytes[x] == original[x]
    {
      assert Within(r.manifest, i, x);
    }
  }

  lemma AcceptGenuine(sha: Hash, r: Receiver, original: seq<Byte>, i: nat, c: Chunk)
    requires r.Shaped() && Counted(r) && Faithful(r, original) && i < r.manifest.chunkCount
    requires BuildChunk(sha, r.manifest, original, i) == Success(c)
    ensures var d := AcceptFn(sha, r, c);
            && d.1 == None
            && d.0.Shaped() && Counted(d.0) && Faithful(d.0, original) && d.0.manifest == r.manifest
            && d.0.received == r.received[i := true]
  {
    GenuineIsValid(sha, r.manifest, original, i);
    if r.received[i] {
      assert r.received == r.received[i := true];
      FaithfulSlice(r, original, i, c.offset, c.offset + |c.data|);
    } else {
      CountSet(r.manifest, r.received, i);
      OverwriteFaithful(r, original, i, c.offset, c.data);
    }
  }

  /** Every delivered chunk is genuine or is refused by `validate_chunk`. */
  ghost predicate HonestStream(sha: Hash, m: Manifest, original: seq<Byte>, chunks: seq<Chunk>) {
    forall k | 0 <= k < |chunks| ::
      GenuineChunk(sha, m, original, chunks[k]) || ValidateChunk(sha, m, chunks[k]).Some?
  }

  /** A genuine chunk with index `i` is among the deliveries. */
  ghost predicate Arrived(sha: Hash, m: Manifest, original: seq<Byte>, chunks: seq<Chunk>, i: nat) {
    exists k :: 0 <= k < |chunks| && chunks[k].index == i && GenuineChunk(sha, m, original, chunks[k])
  }

  lemma {:induction false} DeliveriesAreFaithful(sha: Hash, r: Receiver, original: seq<Byte>, chunks: seq<Chunk>)
    requires r.Shaped() && Counted(r) && Faithful(r, original)
    requires HonestStream(sha, r.manifest, original, chunks)
    ensures var r' := AcceptAll(sha, r, chunks);
            && Counted(r') && Faithful(r', original) && r'.manifest == r.manifest
            && forall i | 0 <= i < |r'.received| ::
                 r'.received[i] <==> r.received[i] || Arrived(sha, r.manifest, original, chunks, i)
    decreases |chunks|
  {
    if chunks != [] {
      var m := r.manifest;
      var c := chunks[0];
      var rest := chunks[1..];
      if GenuineChunk(sha, m, original, c) {
        var i :| 0 <= i < m.chunkCount && BuildChunk(sha, m, original, i) == Success(c);
        AcceptGenuine(sha, r, original, i, c);
        GenuineIsValid(sha, m, original, i);
      }
      var r1 := AcceptFn(sha, r, c).0;
      DeliveriesAreFaithful(sha, r1, original, rest);
      forall i | 0 <= i < |r.received|
        ensures r1.received[i] || Arrived(sha, m, original, rest, i)
                <==> r.received[i] || Arrived(sha, m, original, chunks, i)
      {
        ArrivedCons(sha, m, original, chunks, i);
      }
    }
  }

  lemma ArrivedCons(sha: Hash, m: Manifest, original: seq<Byte>, chunks: seq<Chunk>, i: nat)
    requires chunks != []
    ensures Arrived(sha, m, original, chunks, i) <==>
            (chunks[0].index == i && GenuineChunk(sha, m, original, chunks[0]))
            || Arrived(sha, m, original, chunks[1..], i)
  {
    if Arrived(sha, m, original, chunks[1..], i) {
      var k :| 0 <= k < |chunks[1..]| && chunks[1..][k].index == i && GenuineChunk(sha, m, original, chunks[1..][k]);
      assert chunks[k + 1] == chunks[1..][k];
    }
    if Arrived(sha, m, original, chunks, i) {
      var k :| 0 <= k < |chunks| && chunks[k].index == i && GenuineChunk(sha, m, original, chunks[k]);
      if k > 0 { assert chunks[1..][k - 1] == chunks[k]; }
    }
  }

  lemma CompleteIsOriginal(r: Receiver, original: seq<Byte>)
    requires r.Shaped() && Faithful(r, original)
    requires forall i | 0 <= i < |r.received| :: r.received[i]
    ensures r.bytes == original
  {
    forall x | 0 <= x < |r.bytes|
      ensures r.bytes[x] == original[x]
    {
      var i := x / r.manifest.chunkSize;
      ChunksCover(r.manifest, x, i);
      assert r.received[i];
    }
  }

  /** Reassembly: for every byte string and every chunk size the sender accepts,
      after any order, duplication and interleaving with refused chunks, the
      receiver's counters are exact, and `into_verified` succeeds exactly when every
      index has arrived, returning the original bytes. */
  lemma ReassemblyIsExact(sha: Hash, id: string, original: seq<Byte>, chunkSize: nat, chunks: seq<Chunk>)
    requires id != "" && Describe(sha, id, original, chunkSize).Success?
    requires HonestStream(sha, Describe(sha, id, original, chunkSize).value, original, chunks)
    ensures var m := Describe(sha, id, original, chunkSize).value;
            && ValidManifest(m)
            && (var r := AcceptAll(sha, NewReceiver(m), chunks);
                && Counted(r)
                && (VerifyFn(sha, r, id).Success? <==>
                      forall i | 0 <= i < m.chunkCount :: Arrived(sha, m, original, chunks, i))
                && (VerifyFn(sha, r, id).Success? ==> VerifyFn(sha, r, id).value.bytes == original))
  {
    var m := Describe(sha, id, original, chunkSize).value;
    CeilDivMeaning(Max(|original|, 1), chunkSize);
    var r0 := NewReceiver(m);
    NothingReceived(m, m.chunkCount);
    assert Counted(r0) && Faithful(r0, original);
    DeliveriesAreFaithful(sha, r0, original, chunks);
    var r := AcceptAll(sha, r0, chunks);
    CountFull(r.received);
    if forall i | 0 <= i < m.chunkCount :: Arrived(sha, m, original, chunks, i) {
      assert forall i | 0 <= i < |r.received| :: r.received[i];
      CompleteIsOriginal(r, original);
    }
    if VerifyFn(sha, r, id).Success? {
      CompleteIsOriginal(r, original);
    }
  }

  lemma {:induction false} NothingReceived(m: Manifest, n: nat)
    ensures CountTrue(Unreceived(n)) == 0 && ReceivedBytes(m, Unreceived(n)) == 0
    decreases n
  {
    if n > 0 {
      assert Unreceived(n)[..n - 1] == Unreceived(n - 1);
      NothingReceived(m, n - 1);
    }
  }
}
