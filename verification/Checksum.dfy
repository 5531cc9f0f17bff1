/** The integrity hash of an object (util/checksum.go): digests per segment, and per erasure-coded shard of every segment. */
module Checksum {
  import opened Types

  const DIGEST_SIZE: nat := 32

  /** What the computation takes from outside: SHA-256, the redundancy parameters and the Reed-Solomon library, which
      splits one nonempty segment into shards or fails. */
  datatype Coding = Coding(sha: bytes -> bytes, dataShards: int, parityShards: int, shard: bytes -> Option<seq<bytes>>) {
    function Shards(): int {
      dataShards + parityShards
    }

    /** The digest has fixed length and the library yields the agreed number of shards. */
    ghost predicate WellFormed() {
      && 0 <= Shards()
      && (forall x :: |sha(x)| == DIGEST_SIZE)
      && (forall x :: shard(x).Some? ==> |shard(x).value| == Shards())
    }
  }

  /** Erasure encoding of one segment. */
  function EncodeRawSegment(c: Coding, content: bytes): (r: Option<seq<bytes>>)
    requires c.WellFormed()
    ensures r.Some? ==> |r.value| == c.Shards()
  {
    if c.dataShards <= 0 || c.parityShards < 0 || c.Shards() > 256 then None
    else if |content| == 0 then Some(seq(c.Shards(), _ => []))
    else c.shard(content)
  }

  function Concat(parts: seq<bytes>): bytes
    decreases |parts|
  {
    if parts == [] then [] else parts[0] + Concat(parts[1..])
  }

  function GenerateChecksum(sha: bytes -> bytes, piece: bytes): bytes {
    sha(piece)
  }

  /** Hash of the concatenated checksums. */
  function GenerateIntegrityHash(sha: bytes -> bytes, checksums: seq<bytes>): bytes {
    sha(Concat(checksums))
  }

  /******* Specification *******/

  /** The object cut into segments of `size` bytes, the last one possibly shorter. */
  function Segments(x: bytes, size: nat): seq<bytes>
    requires size > 0
    decreases |x|
  {
    if |x| == 0 then [] else if |x| <= size then [x] else [x[..size]] + Segments(x[size..], size)
  }

  function Digests(sha: bytes -> bytes, parts: seq<bytes>): (r: seq<bytes>)
    ensures |r| == |parts|
  {
    seq(|parts|, i requires 0 <= i < |parts| => sha(parts[i]))
  }

  ghost predicate Encodable(c: Coding, segments: seq<bytes>)
    requires c.WellFormed()
  {
    forall j :: 0 <= j < |segments| ==> EncodeRawSegment(c, segments[j]).Some?
  }

  /** Digests of shard `i` over all segments. */
  ghost function ShardDigests(c: Coding, segments: seq<bytes>, i: nat): (r: seq<bytes>)
    requires c.WellFormed() && i < c.Shards() && Encodable(c, segments)
    ensures |r| == |segments|
  {
    seq(|segments|, j requires 0 <= j < |segments| => c.sha(EncodeRawSegment(c, segments[j]).value[i]))
  }

  /** Entry 0 covers the segments, entry i+1 covers shard i; None when some segment cannot be encoded. */
  ghost function HashList(c: Coding, x: bytes, size: nat): Option<seq<bytes>>
    requires c.WellFormed() && size > 0
  {
    var segments := Segments(x, size);
    if Encodable(c, segments) then
      Some([GenerateIntegrityHash(c.sha, Digests(c.sha, segments))] +
           seq(c.Shards(), i requires 0 <= i < c.Shards() => GenerateIntegrityHash(c.sha, ShardDigests(c, segments, i))))
    else None
  }

  /** One to any number of data shards, no negative number of parity shards, 256 shards at most. */
  ghost predicate ShardsAllowed(c: Coding) {
    1 <= c.dataShards && 0 <= c.parityShards && c.dataShards + c.parityShards <= 256
  }

  /** A nonempty object has a hash list exactly if the numbers of shards are allowed and the library takes every segment. Entry 0
      is the digest of the joined segment digests; entry i + 1 that of the joined digests of shard i of each segment. */
  lemma {:induction false} HashListEntries(c: Coding, x: bytes, size: nat)
    requires c.WellFormed() && size > 0 && x != []
    ensures var segments := Segments(x, size);
      && (HashList(c, x, size).Some? <==> ShardsAllowed(c) && forall j :: 0 <= j < |segments| ==> c.shard(segments[j]).Some?)
      && (HashList(c, x, size).Some? ==>
            var r := HashList(c, x, size).value;
            && |r| == 1 + c.dataShards + c.parityShards && r[0] == c.sha(Concat(Digests(c.sha, segments)))
            && forall i: nat :: i < |r| - 1 ==> r[i + 1] == c.sha(Concat(DigestsOfShard(c, segments, i))))
  {
    SegmentsPartition(x, size);
    var segments := Segments(x, size);
    forall j | 0 <= j < |segments|
      ensures EncodeRawSegment(c, segments[j]) == if ShardsAllowed(c) then c.shard(segments[j]) else None
    {
      assert |segments[j]| > 0;
    }
    assert segments != [];
    if HashList(c, x, size).Some? {
      assert EncodeRawSegment(c, segments[0]).Some?;
      forall i: nat | i < c.Shards() ensures ShardDigests(c, segments, i) == DigestsOfShard(c, segments, i) {
      }
    } else {
      var j :| 0 <= j < |segments| && EncodeRawSegment(c, segments[j]).None?;
    }
  }

  /** Digest of shard i of each segment, as the library splits it. */
  ghost function DigestsOfShard(c: Coding, segments: seq<bytes>, i: nat): (r: seq<bytes>)
    requires c.WellFormed() && i < c.Shards() && forall j :: 0 <= j < |segments| ==> c.shard(segments[j]).Some?
  {
    seq(|segments|, j requires 0 <= j < |segments| => c.sha(c.shard(segments[j]).value[i]))
  }

  /** The empty object has a list for any numbers of shards: the digest of nothing in every entry. */
  lemma {:induction false} EmptyHashList(c: Coding, size: nat)
    requires c.WellFormed() && size > 0
    ensures HashList(c, [], size).Some? && |HashList(c, [], size).value| == 1 + c.dataShards + c.parityShards
    ensures forall i :: 0 <= i < |HashList(c, [], size).value| ==> HashList(c, [], size).value[i] == c.sha([])
  {
    assert Digests(c.sha, Segments([], size)) == [];
    forall i: nat | i < c.Shards() ensures GenerateIntegrityHash(c.sha, ShardDigests(c, [], i)) == c.sha([]) {
      assert ShardDigests(c, [], i) == [];
    }
  }

  /** Segments concatenate to the object; all but the last are full and none is empty. */
  lemma {:induction false} SegmentsPartition(x: bytes, size: nat)
    requires size > 0
    ensures Concat(Segments(x, size)) == x
    ensures forall i :: 0 <= i < |Segments(x, size)| ==> 0 < |Segments(x, size)[i]| <= size
    ensures forall i :: 0 <= i < |Segments(x, size)| - 1 ==> |Segments(x, size)[i]| == size
    decreases |x|
  {
    var segments := Segments(x, size);
    if |x| > size {
      SegmentsPartition(x[size..], size);
      assert segments[1..] == Segments(x[size..], size);
      assert x[..size] + x[size..] == x;
    } else if |x| > 0 {
      assert Concat([x]) == x + Concat([]);
    }
  }

  ghost predicate AllFull(segments: seq<bytes>, size: nat) {
    forall i :: 0 <= i < |segments| ==> |segments[i]| == size
  }

  /** Reading one more chunk after full segments appends one more segment. */
  lemma {:induction false} SegmentsGrow(x: bytes, size: nat, chunk: bytes)
    requires size > 0 && AllFull(Segments(x, size), size) && 0 < |chunk| <= size
    ensures Segments(x + chunk, size) == Segments(x, size) + [chunk]
    decreases |x|
  {
    var segments := Segments(x, size);
    if |x| == 0 {
      assert x + chunk == chunk;
    } else if |x| <= size {
      assert |segments[0]| == size;
      assert (x + chunk)[..size] == x && (x + chunk)[size..] == chunk;
    } else {
      var rest := x[size..];
      assert segments[1..] == Segments(rest, size);
      SegmentsGrow(rest, size, chunk);
      assert (x + chunk)[..size] == x[..size] && (x + chunk)[size..] == rest + chunk;
    }
  }

  /******* Equal digest lists mean equal contents *******/

  /** No two of these strings hash alike. */
  ghost predicate NoCollision(sha: bytes -> bytes, inputs: seq<bytes>) {
    forall i, j :: 0 <= i < |inputs| && 0 <= j < |inputs| && sha(inputs[i]) == sha(inputs[j]) ==> inputs[i] == inputs[j]
  }

  /** Every string hashed for entry 0 of the list: the joined segment digests and the segments. */
  function HashedFor(sha: bytes -> bytes, x: bytes, size: nat): seq<bytes>
    requires size > 0
  {
    [Concat(Digests(sha, Segments(x, size)))] + Segments(x, size)
  }

  /** Joined fixed-width digests split back in one way only. */
  lemma {:induction false} ConcatIsInjective(a: seq<bytes>, b: seq<bytes>, width: nat)
    requires width > 0
    requires forall i :: 0 <= i < |a| ==> |a[i]| == width
    requires forall i :: 0 <= i < |b| ==> |b[i]| == width
    requires Concat(a) == Concat(b)
    ensures a == b
    decreases |a|
  {
    if a == [] {
      assert b == [];
    } else {
      assert b != [];
      assert a[0] == Concat(a)[..width] == Concat(b)[..width] == b[0];
      assert Concat(a[1..]) == Concat(a)[width..] == Concat(b)[width..] == Concat(b[1..]);
      ConcatIsInjective(a[1..], b[1..], width);
      assert a == [a[0]] + a[1..] && b == [b[0]] + b[1..];
    }
  }

  /** Two objects whose lists have the same first entry are equal, unless hashing them exhibited a collision. */
  lemma {:induction false} FirstEntryDeterminesContent(c: Coding, x: bytes, y: bytes, size: nat)
    requires c.WellFormed() && size > 0
    requires HashList(c, x, size).Some? && HashList(c, y, size).Some?
    requires HashList(c, x, size).value[0] == HashList(c, y, size).value[0]
    requires NoCollision(c.sha, HashedFor(c.sha, x, size) + HashedFor(c.sha, y, size))
    ensures x == y
  {
    var sx, sy := Segments(x, size), Segments(y, size);
    var dx, dy := Digests(c.sha, sx), Digests(c.sha, sy);
    var inputs := HashedFor(c.sha, x, size) + HashedFor(c.sha, y, size);
    assert inputs[0] == Concat(dx) && inputs[1 + |sx|] == Concat(dy);
    assert Concat(dx) == Concat(dy);
    ConcatIsInjective(dx, dy, DIGEST_SIZE);
    forall i | 0 <= i < |sx| ensures sx[i] == sy[i] {
      assert inputs[1 + i] == sx[i] && inputs[2 + |sx| + i] == sy[i];
      assert dx[i] == dy[i];
    }
    assert sx == sy;
    SegmentsPartition(x, size);
    SegmentsPartition(y, size);
  }

  /** The whole list identifies the content. */
  lemma {:induction false} HashListIdentifiesContent(c: Coding, x: bytes, y: bytes, size: nat)
    requires c.WellFormed() && size > 0
    requires HashList(c, x, size).Some?
    requires NoCollision(c.sha, HashedFor(c.sha, x, size) + HashedFor(c.sha, y, size))
    ensures HashList(c, x, size) == HashList(c, y, size) <==> x == y
  {
    if HashList(c, x, size) == HashList(c, y, size) {
      FirstEntryDeterminesContent(c, x, y, size);
    }
  }

  /******* The computation *******/

  datatype ReadResult = Chunk(data: bytes) | Eof | ReadError

  /** A reader that fills the buffer except at the end of its data. */
  class Reader {
    const data: bytes
    var pos: nat
    ghost var failures: nat    // reads that reported an error

    ghost predicate Valid()
      reads this
    {
      pos <= |data|
    }

    constructor (data: bytes)
      ensures Valid() && this.data == data && pos == 0
    {
      this.data := data;
      pos := 0;
      failures := 0;
    }

    method Read(size: nat) returns (r: ReadResult)
      requires Valid() && size > 0
      modifies this
      ensures Valid()
      ensures r.Chunk? ==> old(pos) < pos && r.data == data[old(pos)..pos]
      ensures r.Chunk? ==> pos == if old(pos) + size < |data| then old(pos) + size else |data|
      ensures r.Eof? ==> pos == old(pos) == |data|
      ensures r.ReadError? ==> pos == old(pos)
      ensures failures == if r.ReadError? then old(failures) + 1 else old(failures)
    {
      if * {
        failures := failures + 1;
        return ReadError;
      }
      if pos == |data| {
        return Eof;
      }
      var end := if pos + size < |data| then pos + size else |data|;
      r := Chunk(data[pos..end]);
      pos := end;
    }
  }

  /** Appends the digest of each shard of the segment to that shard's list. */
  method EncodeAndComputeHash(c: Coding, encodeDataHash: array<seq<bytes>>, segment: bytes) returns (ok: bool)
    requires c.WellFormed() && encodeDataHash.Length == c.Shards()
    modifies encodeDataHash
    ensures ok == EncodeRawSegment(c, segment).Some?
    ensures ok ==> forall i :: 0 <= i < encodeDataHash.Length ==>
      encodeDataHash[i] == old(encodeDataHash[i]) + [c.sha(EncodeRawSegment(c, segment).value[i])]
    ensures !ok ==> forall i :: 0 <= i < encodeDataHash.Length ==> encodeDataHash[i] == old(encodeDataHash[i])
  {
    var encoded := EncodeRawSegment(c, segment);
    if encoded.None? {
      return false;
    }
    var encodeShards := encoded.value;
    for index := 0 to |encodeShards|
      invariant forall i :: 0 <= i < index ==> encodeDataHash[i] == old(encodeDataHash[i]) + [c.sha(encodeShards[i])]
      invariant forall i :: index <= i < encodeDataHash.Length ==> encodeDataHash[i] == old(encodeDataHash[i])
    {
      var piecesHash := GenerateChecksum(c.sha, encodeShards[index]);
      encodeDataHash[index] := encodeDataHash[index] + [piecesHash];
    }
    return true;
  }

  function Ids(n: nat): (ids: set<nat>)
    ensures forall id: nat :: id in ids <==> id < n
  {
    if n == 0 then {} else Ids(n - 1) + {n - 1}
  }

  /** The workers fill one entry each; `pending` holds those still to finish, in no particular order. */
  method HashShards(c: Coding, encodeDataHash: array<seq<bytes>>, hashList: array<bytes>)
    requires hashList.Length == encodeDataHash.Length + 1
    modifies hashList
    ensures hashList[0] == old(hashList[0])
    ensures forall i :: 0 <= i < encodeDataHash.Length ==> hashList[i + 1] == GenerateIntegrityHash(c.sha, encodeDataHash[i])
  {
    var pending := Ids(encodeDataHash.Length);
    while pending != {}
      invariant forall id :: id in pending ==> id < encodeDataHash.Length
      invariant hashList[0] == old(hashList[0])
      invariant forall id: nat :: id < encodeDataHash.Length && id !in pending ==>
        hashList[id + 1] == GenerateIntegrityHash(c.sha, encodeDataHash[id])
      decreases pending
    {
      var id :| id in pending;
      hashList[id + 1] := GenerateIntegrityHash(c.sha, encodeDataHash[id]);
      pending := pending - {id};
    }
  }

  datatype HashResult = Hashed(hashList: seq<bytes>, contentLen: nat) | ReadFailed | EncodeFailed

  /** Reads the object segment by segment; the result is the specified hash list whatever order the workers finish in. */
  method ComputeIntegrityHashSerial(reader: Reader, segmentSize: nat, c: Coding) returns (r: HashResult)
    requires c.WellFormed() && segmentSize > 0 && reader.Valid() && reader.pos == 0
    modifies reader
    ensures r.Hashed? ==> HashList(c, reader.data, segmentSize) == Some(r.hashList) && r.contentLen == |reader.data|
    ensures r.EncodeFailed? ==> HashList(c, reader.data, segmentSize).None?
    ensures r.ReadFailed? <==> old(reader.failures) < reader.failures
  {
    var encodeDataHash := new seq<bytes>[c.Shards()](_ => []);
    var segChecksumList: seq<bytes> := [];
    var contentLen := 0;
    ghost var segments: seq<bytes> := [];
    assert reader.data[..0] == [];
    while true
      invariant reader.Valid() && contentLen == reader.pos && reader.failures == old(reader.failures)
      invariant AllFull(segments, segmentSize) || reader.pos == |reader.data|
      invariant segments == Segments(reader.data[..reader.pos], segmentSize) && Encodable(c, segments)
      invariant segChecksumList == Digests(c.sha, segments)
      invariant ListsShards(c, encodeDataHash[..], segments)
      decreases |reader.data| - reader.pos
    {
      ghost var before := reader.pos;
      var n := reader.Read(segmentSize);
      if n.ReadError? {
        return ReadFailed;
      }
      if n.Eof? {
        break;
      }
      contentLen := contentLen + |n.data|;
      var checksum := GenerateChecksum(c.sha, n.data);
      segChecksumList := segChecksumList + [checksum];
      NextSegment(reader.data, before, reader.pos, segmentSize, segments);
      DigestsGrow(c.sha, segments, n.data);
      ghost var lists := encodeDataHash[..];
      var ok := EncodeAndComputeHash(c, encodeDataHash, n.data);
      if !ok {
        NotEncodable(c, reader.data, reader.pos, segmentSize, segments, n.data);
        return EncodeFailed;
      }
      ShardsGrow(c, lists, encodeDataHash[..], segments, n.data);
      segments := segments + [n.data];
    }
    assert reader.data[..reader.pos] == reader.data;
    var hashList := new bytes[c.Shards() + 1](_ => []);
    hashList[0] := GenerateIntegrityHash(c.sha, segChecksumList);
    HashShards(c, encodeDataHash, hashList);
    CompleteList(c, reader.data, segmentSize, encodeDataHash[..], hashList[..]);
    return Hashed(hashList[..], contentLen);
  }

  /** The lists collected so far are the shard digests of the segments read so far. */
  ghost predicate ListsShards(c: Coding, lists: seq<seq<bytes>>, segments: seq<bytes>)
    requires c.WellFormed()
  {
    && |lists| == c.Shards()
    && Encodable(c, segments)
    && forall i :: 0 <= i < |lists| ==> lists[i] == ShardDigests(c, segments, i)
  }

  lemma {:induction false} DigestsGrow(sha: bytes -> bytes, segments: seq<bytes>, next: bytes)
    ensures Digests(sha, segments + [next]) == Digests(sha, segments) + [sha(next)]
  {
  }

  lemma {:induction false} ShardsGrow(
      c: Coding, before: seq<seq<bytes>>, after: seq<seq<bytes>>, segments: seq<bytes>, next: bytes)
    requires c.WellFormed() && ListsShards(c, before, segments) && EncodeRawSegment(c, next).Some?
    requires |after| == |before|
    requires forall i :: 0 <= i < |after| ==> after[i] == before[i] + [c.sha(EncodeRawSegment(c, next).value[i])]
    ensures ListsShards(c, after, segments + [next])
  {
    var longer := segments + [next];
    assert Encodable(c, longer);
    forall i | 0 <= i < |after| ensures after[i] == ShardDigests(c, longer, i) {
      assert before[i] == ShardDigests(c, segments, i);
    }
  }

  lemma {:induction false} CompleteList(c: Coding, x: bytes, size: nat, lists: seq<seq<bytes>>, hashList: seq<bytes>)
    requires c.WellFormed() && size > 0 && ListsShards(c, lists, Segments(x, size))
    requires |hashList| == c.Shards() + 1
    requires hashList[0] == GenerateIntegrityHash(c.sha, Digests(c.sha, Segments(x, size)))
    requires forall i :: 0 <= i < |lists| ==> hashList[i + 1] == GenerateIntegrityHash(c.sha, lists[i])
    ensures HashList(c, x, size) == Some(hashList)
  {
    var expected := HashList(c, x, size).value;
    forall k | 0 <= k < |hashList| ensures hashList[k] == expected[k] {
      if k > 0 {
        assert lists[k - 1] == ShardDigests(c, Segments(x, size), k - 1);
      }
    }
    assert hashList == expected;
  }

  lemma {:induction false} NextSegment(data: bytes, before: nat, after: nat, size: nat, segments: seq<bytes>)
    requires size > 0 && before < after <= |data|
    requires segments == Segments(data[..before], size) && AllFull(segments, size)
    requires after == if before + size < |data| then before + size else |data|
    ensures Segments(data[..after], size) == segments + [data[before..after]]
  {
    assert data[..after] == data[..before] + data[before..after];
    SegmentsGrow(data[..before], size, data[before..after]);
  }

  /** A segment that cannot be encoded makes the whole object fail. */
  lemma {:induction false} NotEncodable(c: Coding, data: bytes, pos: nat, size: nat, segments: seq<bytes>, bad: bytes)
    requires c.WellFormed() && size > 0 && pos <= |data|
    requires AllFull(segments + [bad], size) || pos == |data|
    requires Segments(data[..pos], size) == segments + [bad] && EncodeRawSegment(c, bad).None?
    ensures HashList(c, data, size).None?
  {
    if pos == |data| {
      assert data[..pos] == data;
    } else {
      SegmentsPrefix(data, pos, size);
    }
    assert Segments(data, size)[|segments|] == bad;
  }

  lemma {:induction false} SegmentsPrefix(data: bytes, pos: nat, size: nat)
    requires size > 0 && pos <= |data| && AllFull(Segments(data[..pos], size), size)
    ensures Segments(data[..pos], size) <= Segments(data, size)
    decreases |data|
  {
    var front := data[..pos];
    var segments := Segments(front, size);
    if pos > 0 && pos < |data| {
      assert |segments[0]| == size;
      assert front[..size] == data[..size];
      var rest := data[size..];
      assert rest[..pos - size] == front[size..];
      if pos > size {
        assert segments[1..] == Segments(rest[..pos - size], size);
        SegmentsPrefix(rest, pos - size, size);
      } else {
        assert front == data[..size];
      }
    } else if pos == |data| {
      assert front == data;
    }
  }
}
