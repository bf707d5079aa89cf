/** Little-endian 32-bit words, as `u32::to_le_bytes` and `u32::from_le_bytes`. */
module LittleEndian {
  import opened Prelude

  /** `(n as u32).to_le_bytes()`: the cast keeps the low 32 bits. */
  function Le32(n: nat): (r: seq<Byte>)
    ensures |r| == 4
  {
    [n % 256, n / 256 % 256, n / 256 / 256 % 256, n / 256 / 256 / 256 % 256]
  }

  /** Total: only four-byte strings are ever read. */
  function FromLe32(b: seq<Byte>): nat {
    if |b| != 4 then 0
    else
      var b0: nat, b1: nat, b2: nat, b3: nat := b[0], b[1], b[2], b[3];
      b0 + 256 * b1 + 65536 * b2 + 16777216 * b3
  }

  lemma Le32RoundTrip(n: nat)
    requires n <= U32_MAX
    ensures FromLe32(Le32(n)) == n
  {
    var q1, q2, q3 := n / 256, n / 256 / 256, n / 256 / 256 / 256;
    assert n == n % 256 + 256 * q1 && q1 == q1 % 256 + 256 * q2 && q2 == q2 % 256 + 256 * q3;
    assert q3 == q3 % 256;
  }

  /** How words are written and read, and the checksum.  The file formats below
      need only what `Valid` says of them. */
  datatype Format = Format(crc: seq<Byte> -> nat, word: nat -> seq<Byte>, unword: seq<Byte> -> nat) {
    ghost predicate Valid() {
      && (forall n: nat :: |word(n)| == 4)
      && (forall n: nat | n <= U32_MAX :: unword(word(n)) == n)
      && (forall b :: crc(b) <= U32_MAX)
    }
  }

  /** The format the code uses, with its checksum as a parameter. */
  function Standard(crc: seq<Byte> -> nat): Format {
    Format(crc, Le32, FromLe32)
  }

  lemma StandardIsValid(crc: seq<Byte> -> nat)
    requires forall b :: crc(b) <= U32_MAX
    ensures Standard(crc).Valid()
  {
    forall n: nat | n <= U32_MAX
      ensures FromLe32(Le32(n)) == n
    {
      Le32RoundTrip(n);
    }
  }
}

/**
 The snapshot file format of crates/chirps-raft-storage/src/wal_storage.rs:
 magic, version, blocks of (metadata length, data length, checksum, body), and a
 zero terminator.  Metadata stays encoded.
 */
module SnapshotFile {
  import opened Prelude
  import opened LittleEndian

  /** b"SNAP". */
  const MAGIC: seq<Byte> := [0x53, 0x4E, 0x41, 0x50]
  const VERSION: nat := 1

  datatype Error = InvalidHeader | VersionMismatch | Truncated | BadTerminator | ChecksumMismatch
                 | TrailingBytes | MetaMissing

  datatype Content = Content(meta: seq<Byte>, data: seq<Byte>)

  // ------------------------------------------------------------------ encoding

  function Words(f: Format, metaLen: nat, dataLen: nat, checksum: nat): seq<Byte> {
    f.word(metaLen) + f.word(dataLen) + f.word(checksum)
  }

  /** How one block is laid out, as a function of its metadata and data. */
  function BlockFormat(f: Format): (seq<Byte>, seq<Byte>) -> seq<Byte> {
    (meta: seq<Byte>, data: seq<Byte>) => Words(f, |meta|, |data|, f.crc(meta + data)) + (meta + data)
  }

  /** The blocks for `data`, the first one carrying `meta`. */
  function Blocks(block: (seq<Byte>, seq<Byte>) -> seq<Byte>, meta: seq<Byte>, data: seq<Byte>, chunk: nat): seq<Byte>
    requires chunk > 0
    decreases |data|
  {
    var take := Min(chunk, |data|);
    block(meta, data[..take]) + if take == |data| then [] else Blocks(block, [], data[take..], chunk)
  }

  function EncodeFn(f: Format, meta: seq<Byte>, data: seq<Byte>, chunkSize: nat): seq<Byte> {
    MAGIC + f.word(VERSION) + Blocks(BlockFormat(f), meta, data, Max(chunkSize, 1)) + Words(f, 0, 0, 0)
  }

  /** What the encoder's loop leaves in the buffer, from a given point on. */
  ghost function EncodeLoop(block: (seq<Byte>, seq<Byte>) -> seq<Byte>, buf: seq<Byte>, meta: seq<Byte>,
                            data: seq<Byte>, offset: nat, chunk: nat): seq<Byte>
    requires chunk > 0 && offset <= |data|
    decreases |data| - offset
  {
    var end := offset + Min(chunk, |data| - offset);
    var buf' := buf + block(meta, data[offset..end]);
    if end == |data| then buf' else EncodeLoop(block, buf', [], data, end, chunk)
  }

  lemma {:induction false} EncodeLoopIsBlocks(block: (seq<Byte>, seq<Byte>) -> seq<Byte>, buf: seq<Byte>,
                                              meta: seq<Byte>, data: seq<Byte>, offset: nat, chunk: nat)
    requires chunk > 0 && offset <= |data|
    ensures EncodeLoop(block, buf, meta, data, offset, chunk) == buf + Blocks(block, meta, data[offset..], chunk)
    decreases |data| - offset
  {
    var end := offset + Min(chunk, |data| - offset);
    var first := block(meta, data[offset..end]);
    var rest := data[offset..];
    assert rest[..end - offset] == data[offset..end];
    if end == |data| {
      assert Blocks(block, meta, rest, chunk) == first + [] == first;
    } else {
      EncodeLoopIsBlocks(block, buf + first, [], data, end, chunk);
      assert rest[end - offset..] == data[end..];
      var later := Blocks(block, [], data[end..], chunk);
      assert Blocks(block, meta, rest, chunk) == first + later;
      assert (buf + first) + later == buf + (first + later);
    }
  }

  /** `encode_snapshot_file`. */
  method Encode(f: Format, meta: seq<Byte>, data: seq<Byte>, chunkSize: nat) returns (buf: seq<Byte>)
    ensures buf == EncodeFn(f, meta, data, chunkSize)
  {
    var chunk := Max(chunkSize, 1);
    var header := MAGIC + f.word(VERSION);
    buf := EncodeBlocks(f, header, meta, data, chunk);
    EncodeLoopIsBlocks(BlockFormat(f), header, meta, data, 0, chunk);
    assert data[0..] == data;
    buf := AppendWords(f, buf, 0, 0, 0);
  }

  method EncodeBlocks(f: Format, header: seq<Byte>, meta: seq<Byte>, data: seq<Byte>, chunk: nat)
    returns (buf: seq<Byte>)
    requires chunk > 0
    ensures buf == EncodeLoop(BlockFormat(f), header, meta, data, 0, chunk)
  {
    buf := header;
    var offset := 0;
    var first := true;
    ghost var target := EncodeLoop(BlockFormat(f), header, meta, data, 0, chunk);
    while true
      invariant 0 <= offset <= |data| && (first || offset < |data|)
      invariant EncodeLoop(BlockFormat(f), buf, if first then meta else [], data, offset, chunk) == target
      decreases |data| - offset, first
    {
      buf, offset := EncodeOne(f, buf, if first then meta else [], data, offset, chunk);
      first := false;
      if offset >= |data| {
        break;
      }
    }
  }

  /** One round: the next `chunk` bytes, with whatever metadata goes in front. */
  method EncodeOne(f: Format, buf: seq<Byte>, metaPart: seq<Byte>, data: seq<Byte>, offset: nat, chunk: nat)
    returns (longer: seq<Byte>, end: nat)
    requires chunk > 0 && offset <= |data|
    ensures end == offset + Min(chunk, |data| - offset)
    ensures EncodeLoop(BlockFormat(f), buf, metaPart, data, offset, chunk)
         == if end == |data| then longer else EncodeLoop(BlockFormat(f), longer, [], data, end, chunk)
  {
    var take := Min(chunk, SatSub(|data|, offset));
    end := offset + take;
    EncodeStep(BlockFormat(f), buf, metaPart, data, offset, end, chunk);
    longer := AppendBlock(f, buf, metaPart, data[offset..end]);
  }

  lemma EncodeStep(block: (seq<Byte>, seq<Byte>) -> seq<Byte>, buf: seq<Byte>, meta: seq<Byte>,
                   data: seq<Byte>, offset: nat, end: nat, chunk: nat)
    requires chunk > 0 && offset <= |data| && end == offset + Min(chunk, |data| - offset)
    ensures EncodeLoop(block, buf, meta, data, offset, chunk)
         == var buf' := buf + block(meta, data[offset..end]);
            if end == |data| then buf' else EncodeLoop(block, buf', [], data, end, chunk)
  {
  }

  method AppendBlock(f: Format, buf: seq<Byte>, meta: seq<Byte>, data: seq<Byte>) returns (r: seq<Byte>)
    ensures r == buf + BlockFormat(f)(meta, data)
  {
    var body := meta + data;
    r := AppendWords(f, buf, |meta|, |data|, f.crc(body));
    r := r + body;
  }

  method AppendWords(f: Format, buf: seq<Byte>, metaLen: nat, dataLen: nat, checksum: nat) returns (r: seq<Byte>)
    ensures r == buf + Words(f, metaLen, dataLen, checksum)
  {
    r := buf + f.word(metaLen);
    r := r + f.word(dataLen);
    r := r + f.word(checksum);
  }

  // ------------------------------------------------------------------ decoding

  datatype Header = Header(metaLen: nat, dataLen: nat, checksum: nat)

  function ReadHeader(f: Format, h: seq<Byte>): Header
    requires |h| == 12
  {
    Header(f.unword(h[0..4]), f.unword(h[4..8]), f.unword(h[8..12]))
  }

  function Finish(meta: Option<seq<Byte>>, data: seq<Byte>): Result<Content, Error> {
    if meta.None? then Failure(MetaMissing) else Success(Content(meta.value, data))
  }

  /** The loop of `get_current_snapshot` over the bytes not yet read. */
  function DecodeBlocks(f: Format, rest: seq<Byte>, meta: Option<seq<Byte>>, data: seq<Byte>): Result<Content, Error>
    decreases |rest|
  {
    if |rest| < 12 then Failure(Truncated)
    else
      var Header(metaLen, dataLen, checksum) := ReadHeader(f, rest[..12]);
      var tail := rest[12..];
      if metaLen == 0 && dataLen == 0 then
        if checksum != 0 then Failure(BadTerminator)
        else if tail != [] then Failure(TrailingBytes)
        else Finish(meta, data)
      else if metaLen + dataLen > |tail| then Failure(Truncated)
      else
        var body := tail[..metaLen + dataLen];
        if f.crc(body) != checksum then Failure(ChecksumMismatch)
        else
          DecodeBlocks(f, tail[metaLen + dataLen..],
                       if metaLen > 0 then Some(body[..metaLen]) else meta,
                       data + body[metaLen..])
  }

  function DecodeFn(f: Format, bytes: seq<Byte>): Result<Content, Error> {
    if |bytes| < 20 || bytes[..4] != MAGIC then Failure(InvalidHeader)
    else if f.unword(bytes[4..8]) != VERSION then Failure(VersionMismatch)
    else DecodeBlocks(f, bytes[8..], None, [])
  }

  /** The same loop, by offset into the whole file. */
  ghost function DecodeFrom(f: Format, bytes: seq<Byte>, offset: nat, meta: Option<seq<Byte>>, data: seq<Byte>)
      : Result<Content, Error>
    requires offset <= |bytes|
    decreases |bytes| - offset
  {
    if offset + 12 > |bytes| then Failure(Truncated)
    else
      var Header(metaLen, dataLen, checksum) := ReadHeader(f, bytes[offset..offset + 12]);
      var start := offset + 12;
      if metaLen == 0 && dataLen == 0 then
        if checksum != 0 then Failure(BadTerminator)
        else if start != |bytes| then Failure(TrailingBytes)
        else Finish(meta, data)
      else if start + metaLen + dataLen > |bytes| then Failure(Truncated)
      else
        var body := bytes[start..start + metaLen + dataLen];
        if f.crc(body) != checksum then Failure(ChecksumMismatch)
        else
          DecodeFrom(f, bytes, start + metaLen + dataLen,
                     if metaLen > 0 then Some(body[..metaLen]) else meta,
                     data + body[metaLen..])
  }

  lemma BodySlices(bytes: seq<Byte>, offset: nat, n: nat)
    requires offset + n <= |bytes|
    ensures bytes[offset..][..n] == bytes[offset..offset + n]
    ensures bytes[offset..][n..] == bytes[offset + n..]
  {
  }

  lemma {:induction false} OffsetsAreSuffixes(f: Format, bytes: seq<Byte>, offset: nat, meta: Option<seq<Byte>>,
                                              data: seq<Byte>)
    requires offset <= |bytes|
    ensures DecodeFrom(f, bytes, offset, meta, data) == DecodeBlocks(f, bytes[offset..], meta, data)
    decreases |bytes| - offset
  {
    if offset + 12 <= |bytes| {
      BodySlices(bytes, offset, 12);
      var h := ReadHeader(f, bytes[offset..offset + 12]);
      var n := h.metaLen + h.dataLen;
      var start := offset + 12;
      if 0 < n && start + n <= |bytes| {
        BodySlices(bytes, start, n);
        var body := bytes[start..start + n];
        OffsetsAreSuffixes(f, bytes, start + n, if h.metaLen > 0 then Some(body[..h.metaLen]) else meta,
                           data + body[h.metaLen..]);
      }
    }
  }

  /** The decoder inside `get_current_snapshot`. */
  method Decode(f: Format, bytes: seq<Byte>) returns (r: Result<Content, Error>)
    ensures r == DecodeFn(f, bytes)
  {
    if |bytes| < 20 || bytes[..4] != MAGIC {
      return Failure(InvalidHeader);
    }
    if f.unword(bytes[4..8]) != VERSION {
      return Failure(VersionMismatch);
    }
    OffsetsAreSuffixes(f, bytes, 8, None, []);
    r := DecodeBody(f, bytes);
  }

  method DecodeBody(f: Format, bytes: seq<Byte>) returns (r: Result<Content, Error>)
    requires 8 <= |bytes|
    ensures r == DecodeFrom(f, bytes, 8, None, [])
  {
    var offset := 8;
    var meta: Option<seq<Byte>> := None;
    var data := [];
    while true
      invariant 8 <= offset <= |bytes|
      invariant DecodeFrom(f, bytes, 8, None, []) == DecodeFrom(f, bytes, offset, meta, data)
      decreases |bytes| - offset
    {
      if offset + 12 > |bytes| {
        return Failure(Truncated);
      }
      var Header(metaLen, dataLen, checksum) := ReadHeader(f, bytes[offset..offset + 12]);
      offset := offset + 12;
      if metaLen == 0 && dataLen == 0 {
        if checksum != 0 {
          return Failure(BadTerminator);
        }
        break;
      }
      if offset + metaLen + dataLen > |bytes| {
        return Failure(Truncated);
      }
      var body := bytes[offset..offset + metaLen + dataLen];
      offset := offset + metaLen + dataLen;
      if f.crc(body) != checksum {
        return Failure(ChecksumMismatch);
      }
      if metaLen > 0 {
        meta := Some(body[..metaLen]);
      }
      data := data + body[metaLen..];
    }
    if offset != |bytes| {
      return Failure(TrailingBytes);
    }
    if meta.None? {
      return Failure(MetaMissing);
    }
    r := Success(Content(meta.value, data));
  }

  // ------------------------------------------------------------------ theorems

  lemma ReadBack(f: Format, metaLen: nat, dataLen: nat, checksum: nat)
    requires f.Valid() && metaLen <= U32_MAX && dataLen <= U32_MAX && checksum <= U32_MAX
    ensures |Words(f, metaLen, dataLen, checksum)| == 12
    ensures ReadHeader(f, Words(f, metaLen, dataLen, checksum)) == Header(metaLen, dataLen, checksum)
  {
    var h := Words(f, metaLen, dataLen, checksum);
    assert h[0..4] == f.word(metaLen) && h[4..8] == f.word(dataLen) && h[8..12] == f.word(checksum);
  }

  lemma SplitAt(a: seq<Byte>, b: seq<Byte>)
    ensures (a + b)[..|a|] == a && (a + b)[|a|..] == b
  {
  }

  /** Reading back one block leaves exactly what follows it. */
  lemma DecodeOneBlock(f: Format, meta: seq<Byte>, data: seq<Byte>, after: seq<Byte>,
                       soFar: Option<seq<Byte>>, read: seq<Byte>)
    requires f.Valid() && |meta| <= U32_MAX && |data| <= U32_MAX && meta + data != []
    ensures DecodeBlocks(f, BlockFormat(f)(meta, data) + after, soFar, read)
         == DecodeBlocks(f, after, if meta != [] then Some(meta) else soFar, read + data)
  {
    var body := meta + data;
    var words := Words(f, |meta|, |data|, f.crc(body));
    var rest := BlockFormat(f)(meta, data) + after;
    assert rest == words + (body + after);
    SplitAt(words, body + after);
    ReadBack(f, |meta|, |data|, f.crc(body));
    SplitAt(body, after);
    SplitAt(meta, data);
  }

  lemma {:induction false} DecodeAllBlocks(f: Format, meta: seq<Byte>, data: seq<Byte>, chunk: nat,
                                           soFar: Option<seq<Byte>>, read: seq<Byte>)
    requires f.Valid() && chunk > 0 && meta + data != []
    requires |meta| <= U32_MAX && Min(chunk, |data|) <= U32_MAX
    ensures DecodeBlocks(f, Blocks(BlockFormat(f), meta, data, chunk) + Words(f, 0, 0, 0), soFar, read)
         == Finish(if meta != [] then Some(meta) else soFar, read + data)
    decreases |data|
  {
    var take := Min(chunk, |data|);
    var end := Words(f, 0, 0, 0);
    var metaNow := if meta != [] then Some(meta) else soFar;
    var after := (if take == |data| then [] else Blocks(BlockFormat(f), [], data[take..], chunk)) + end;
    assert Blocks(BlockFormat(f), meta, data, chunk) + end == BlockFormat(f)(meta, data[..take]) + after;
    DecodeOneBlock(f, meta, data[..take], after, soFar, read);
    if take == |data| {
      DecodeTerminator(f, metaNow, read + data);
      assert data[..take] == data;
      assert after == end;
    } else {
      DecodeAllBlocks(f, [], data[take..], chunk, metaNow, read + data[..take]);
      assert read + data[..take] + data[take..] == read + data;
    }
  }

  lemma DecodeTerminator(f: Format, meta: Option<seq<Byte>>, data: seq<Byte>)
    requires f.Valid()
    ensures DecodeBlocks(f, Words(f, 0, 0, 0), meta, data) == Finish(meta, data)
  {
    var t := Words(f, 0, 0, 0);
    ReadBack(f, 0, 0, 0);
    assert t[..12] == t && t[12..] == [];
  }

  lemma HeaderReads(f: Format, file: seq<Byte>, rest: seq<Byte>)
    requires f.Valid() && |rest| >= 12 && file == MAGIC + f.word(VERSION) + rest
    ensures DecodeFn(f, file) == DecodeBlocks(f, rest, None, [])
  {
    assert file[..4] == MAGIC && file[4..8] == f.word(VERSION) && file[8..] == rest;
  }

  /** For all metadata, data and chunk sizes whose lengths fit 32 bits, decoding the
      encoded file gives both back if and only if the metadata is not empty. */
  lemma RoundTrip(f: Format, meta: seq<Byte>, data: seq<Byte>, chunkSize: nat)
    requires f.Valid()
    requires |meta| <= U32_MAX && Min(Max(chunkSize, 1), |data|) <= U32_MAX
    ensures meta != [] ==> DecodeFn(f, EncodeFn(f, meta, data, chunkSize)) == Success(Content(meta, data))
    ensures meta == [] ==> DecodeFn(f, EncodeFn(f, meta, data, chunkSize)).Failure?
  {
    var chunk := Max(chunkSize, 1);
    var blocks, end := Blocks(BlockFormat(f), meta, data, chunk), Words(f, 0, 0, 0);
    ReadBack(f, 0, 0, 0);
    assert EncodeFn(f, meta, data, chunkSize) == MAGIC + f.word(VERSION) + (blocks + end);
    HeaderReads(f, EncodeFn(f, meta, data, chunkSize), blocks + end);
    if meta + data == [] {
      EmptyBlockStops(f, end);
      assert meta == [] && data[..0] == [] && blocks == BlockFormat(f)([], []) + [] == BlockFormat(f)([], []);
    } else {
      DecodeAllBlocks(f, meta, data, chunk, None, []);
      assert [] + data == data;
    }
  }

  /** A block without metadata or data reads as the terminator, with bytes after it. */
  lemma EmptyBlockStops(f: Format, after: seq<Byte>)
    requires f.Valid() && after != []
    ensures DecodeBlocks(f, BlockFormat(f)([], []) + after, None, []).Failure?
  {
    var none: seq<Byte> := [];
    assert none + none == none;
    var words := Words(f, 0, 0, f.crc(none));
    ReadBack(f, 0, 0, f.crc(none));
    var rest := BlockFormat(f)([], []) + after;
    assert rest == words + after;
    SplitAt(words, after);
  }

  lemma PrefixSlices(a: seq<Byte>, b: seq<Byte>, n: nat)
    requires a <= b && n <= |a|
    ensures a[..n] == b[..n] && a[n..] <= b[n..]
  {
  }

  /** Two byte strings, one a prefix of the other, cannot both decode. */
  lemma {:induction false} BlocksPrefixFree(f: Format, a: seq<Byte>, b: seq<Byte>,
                                            meta: Option<seq<Byte>>, data: seq<Byte>)
    requires a <= b
    requires DecodeBlocks(f, a, meta, data).Success? && DecodeBlocks(f, b, meta, data).Success?
    ensures a == b
    decreases |a|
  {
    PrefixSlices(a, b, 12);
    var h := ReadHeader(f, a[..12]);
    var n := h.metaLen + h.dataLen;
    if n > 0 {
      PrefixSlices(a[12..], b[12..], n);
      var body := a[12..][..n];
      BlocksPrefixFree(f, a[12..][n..], b[12..][n..],
                       if h.metaLen > 0 then Some(body[..h.metaLen]) else meta, data + body[h.metaLen..]);
    }
  }

  lemma PrefixFree(f: Format, a: seq<Byte>, b: seq<Byte>)
    requires a <= b && DecodeFn(f, a).Success? && DecodeFn(f, b).Success?
    ensures a == b
  {
    PrefixSlices(a, b, 8);
    BlocksPrefixFree(f, a[8..], b[8..], None, []);
  }

  /** No strict prefix and no strict extension of an encoded file decodes. */
  lemma TornFilesAreRefused(f: Format, meta: seq<Byte>, data: seq<Byte>, chunkSize: nat, other: seq<Byte>)
    requires f.Valid()
    requires meta != [] && |meta| <= U32_MAX && Min(Max(chunkSize, 1), |data|) <= U32_MAX
    requires other < EncodeFn(f, meta, data, chunkSize) || EncodeFn(f, meta, data, chunkSize) < other
    ensures DecodeFn(f, other).Failure?
  {
    var file := EncodeFn(f, meta, data, chunkSize);
    RoundTrip(f, meta, data, chunkSize);
    if DecodeFn(f, other).Success? {
      if other <= file { PrefixFree(f, other, file); } else { PrefixFree(f, file, other); }
    }
  }

  /** Both, for the little-endian format the code writes. */
  lemma StandardFiles(crc: seq<Byte> -> nat, meta: seq<Byte>, data: seq<Byte>, chunkSize: nat, other: seq<Byte>)
    requires forall b :: crc(b) <= U32_MAX
    requires meta != [] && |meta| <= U32_MAX && Min(Max(chunkSize, 1), |data|) <= U32_MAX
    ensures Standard(crc).Valid()
    ensures var file := EncodeFn(Standard(crc), meta, data, chunkSize);
            && DecodeFn(Standard(crc), file) == Success(Content(meta, data))
            && (other < file || file < other ==> DecodeFn(Standard(crc), other).Failure?)
  {
    StandardIsValid(crc);
    var f := Standard(crc);
    RoundTrip(f, meta, data, chunkSize);
    var file := EncodeFn(f, meta, data, chunkSize);
    if other < file || file < other {
      TornFilesAreRefused(f, meta, data, chunkSize, other);
    }
  }
}

/**
 WAL record framing: `append_record` writes length, checksum and payload;
 `validate_wal_framing` refuses a file that does not end on a record boundary.
 */
module WalFraming {
  import opened Prelude
  import opened LittleEndian

  function Frame(f: Format, payload: seq<Byte>): (r: seq<Byte>)
    requires f.Valid()
    ensures |r| == 8 + |payload|
  {
    f.word(|payload|) + f.word(f.crc(payload)) + payload
  }

  /** The file after the payloads were appended in order. */
  function File(f: Format, payloads: seq<seq<Byte>>): seq<Byte>
    requires f.Valid()
  {
    if payloads == [] then [] else Frame(f, payloads[0]) + File(f, payloads[1..])
  }

  /** Every byte from here on belongs to a complete record with a good checksum. */
  predicate WellFramed(f: Format, rest: seq<Byte>)
    decreases |rest|
  {
    || rest == []
    || (|rest| >= 8 &&
        var length := f.unword(rest[0..4]);
        && length <= |rest[8..]|
        && f.crc(rest[8..][..length]) == f.unword(rest[4..8])
        && WellFramed(f, rest[8..][length..]))
  }

  /** `validate_wal_framing`. */
  method Validate(f: Format, file: seq<Byte>) returns (ok: bool)
    ensures ok == WellFramed(f, file)
  {
    var offset := 0;
    while offset < |file|
      invariant 0 <= offset <= |file|
      invariant WellFramed(f, file) == WellFramed(f, file[offset..])
    {
      ghost var rest := file[offset..];
      if |file| - offset < 8 {
        return false;
      }
      assert rest[0..4] == file[offset..offset + 4] && rest[4..8] == file[offset + 4..offset + 8];
      assert rest[8..] == file[offset + 8..];
      var length := f.unword(file[offset..offset + 4]);
      var expected := f.unword(file[offset + 4..offset + 8]);
      offset := offset + 8;
      if length > |file| - offset {
        return false;
      }
      var record := file[offset..offset + length];
      assert record == file[offset..][..length];
      assert file[offset + length..] == file[offset..][length..];
      offset := offset + length;
      if f.crc(record) != expected {
        return false;
      }
    }
    ok := true;
  }

  ghost predicate Fits(payloads: seq<seq<Byte>>) {
    forall i | 0 <= i < |payloads| :: |payloads[i]| <= U32_MAX
  }

  /** The cut falls between two records. */
  ghost predicate OnBoundary(f: Format, payloads: seq<seq<Byte>>, cut: seq<Byte>)
    requires f.Valid()
  {
    exists k :: 0 <= k <= |payloads| && cut == File(f, payloads[..k])
  }

  lemma FileTake(f: Format, payloads: seq<seq<Byte>>, k: nat)
    requires f.Valid() && 0 < k <= |payloads|
    ensures File(f, payloads[..k]) == Frame(f, payloads[0]) + File(f, payloads[1..][..k - 1])
  {
    assert payloads[..k][0] == payloads[0] && payloads[..k][1..] == payloads[1..][..k - 1];
  }

  lemma BoundaryCons(f: Format, payloads: seq<seq<Byte>>, rest: seq<Byte>)
    requires f.Valid() && payloads != []
    ensures OnBoundary(f, payloads, Frame(f, payloads[0]) + rest) <==> OnBoundary(f, payloads[1..], rest)
  {
    var first := Frame(f, payloads[0]);
    if OnBoundary(f, payloads, first + rest) {
      var k :| 0 <= k <= |payloads| && first + rest == File(f, payloads[..k]);
      assert k > 0;
      FileTake(f, payloads, k);
      SameTail(first, rest, File(f, payloads[1..][..k - 1]));
      assert rest == File(f, payloads[1..][..k - 1]);
    }
    if OnBoundary(f, payloads[1..], rest) {
      var k :| 0 <= k <= |payloads[1..]| && rest == File(f, payloads[1..][..k]);
      FileTake(f, payloads, k + 1);
      assert first + rest == File(f, payloads[..k + 1]);
    }
  }

  lemma SameTail(a: seq<Byte>, b: seq<Byte>, c: seq<Byte>)
    requires a + b == a + c
    ensures b == c
  {
    assert (a + b)[|a|..] == b && (a + c)[|a|..] == c;
  }

  /** A complete record in front is skipped. */
  lemma FrameIsWellFramed(f: Format, payload: seq<Byte>, rest: seq<Byte>)
    requires f.Valid() && |payload| <= U32_MAX
    ensures WellFramed(f, Frame(f, payload) + rest) <==> WellFramed(f, rest)
  {
    var s := Frame(f, payload) + rest;
    assert s[0..4] == f.word(|payload|) && s[4..8] == f.word(f.crc(payload));
    assert s[8..] == payload + rest;
    assert (payload + rest)[..|payload|] == payload && (payload + rest)[|payload|..] == rest;
  }

  /** A record cut short is refused, and is not on a boundary. */
  lemma ShortFrame(f: Format, payloads: seq<seq<Byte>>, cut: seq<Byte>)
    requires f.Valid() && payloads != [] && |payloads[0]| <= U32_MAX
    requires cut < Frame(f, payloads[0]) && cut != []
    ensures !WellFramed(f, cut) && !OnBoundary(f, payloads, cut)
  {
    var frame := Frame(f, payloads[0]);
    if |cut| >= 8 {
      assert cut[0..4] == frame[0..4] == f.word(|payloads[0]|);
    }
    forall k | 0 <= k <= |payloads|
      ensures cut != File(f, payloads[..k])
    {
      if k > 0 { FileTake(f, payloads, k); }
    }
  }

  /** A torn file is accepted exactly when the tear falls on a record boundary, so
      what recovery then reads is the log of some number of whole appends. */
  lemma {:induction false} TornWal(f: Format, payloads: seq<seq<Byte>>, cut: seq<Byte>)
    requires f.Valid() && Fits(payloads) && cut <= File(f, payloads)
    ensures WellFramed(f, cut) <==> OnBoundary(f, payloads, cut)
    decreases |payloads|
  {
    if cut == [] {
      assert cut == File(f, payloads[..0]);
    } else {
      var first := Frame(f, payloads[0]);
      if |cut| < |first| {
        assert cut < first;
        ShortFrame(f, payloads, cut);
      } else {
        var rest := cut[|first|..];
        assert cut == first + rest && rest <= File(f, payloads[1..]);
        TornWal(f, payloads[1..], rest);
        FrameIsWellFramed(f, payloads[0], rest);
        BoundaryCons(f, payloads, rest);
      }
    }
  }

  /** The same for the little-endian format the code writes. */
  lemma StandardTornWal(crc: seq<Byte> -> nat, payloads: seq<seq<Byte>>, cut: seq<Byte>)
    requires forall b :: crc(b) <= U32_MAX
    requires Fits(payloads)
    ensures Standard(crc).Valid()
    ensures cut <= File(Standard(crc), payloads) ==>
              (WellFramed(Standard(crc), cut) <==> OnBoundary(Standard(crc), payloads, cut))
  {
    StandardIsValid(crc);
    if cut <= File(Standard(crc), payloads) {
      TornWal(Standard(crc), payloads, cut);
    }
  }
}
