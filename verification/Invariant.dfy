/** What holds in every reachable state of the protocol. */
module Invariant {
  import opened Types
  import opened Dao
  import opened Protocol
  import Chain
  import Checks
  import Checksum
  import Text

  /******* Directories *******/

  /** Every file is a blob of a slot in [lo, hi], with the content the chain has for it. */
  ghost predicate Within(env: Env, d: Dir, lo: nat, hi: nat) {
    forall k :: k in d ==> lo <= k.slot <= hi && 0 <= k.idx < |env.sidecars(k.slot)| && d[k] == env.sidecars(k.slot)[k.idx].blob
  }

  /** Every blob of the slots in [lo, n) has its file. */
  ghost predicate Filled(env: Env, d: Dir, lo: nat, n: nat) {
    forall m: nat, i: nat :: lo <= m < n && i < |env.sidecars(m)| ==> BlobKey(m, i) in d
  }

  /** The first `i` blobs of slot n have their files. */
  ghost predicate Begun(d: Dir, n: nat, i: nat) {
    forall j: nat :: j < i ==> BlobKey(n, j) in d
  }

  /******* Tables *******/

  /** Exactly the slots [start, next) are saved. */
  ghost predicate Slots(env: Env, next: nat, blocks: BlockTable) {
    env.start <= next && forall n: nat :: n in blocks <==> env.start <= n < next
  }

  /** Every block names a recorded bundle whose range contains its slot. */
  ghost predicate Homes(blocks: BlockTable, bundles: BundleTable) {
    forall n :: n in blocks ==> blocks[n].bundle in bundles && blocks[n].bundle.Covers(n)
  }

  /** Count and header are what the chain says, and no block was skipped. */
  ghost predicate Counts(env: Env, blocks: BlockTable) {
    forall n :: n in blocks ==>
      && blocks[n].blobCount == |env.sidecars(n)| && blocks[n].header == HeaderAt(env, n) && !blocks[n].status.Skipped?
  }

  /** The row is what the chain says about its blob, whatever id it has. */
  ghost predicate IsRow(env: Env, k: BlobKey, row: BlobRow) {
    && 0 <= k.idx < |env.sidecars(k.slot)|
    && Rows(env, k.slot).Some? && k.idx < |Rows(env, k.slot).value|
    && row.(id := 0) == Rows(env, k.slot).value[k.idx]
  }

  /** One row for each blob of each saved slot, and no others. */
  ghost predicate BlobRows(env: Env, next: nat, blobs: BlobTable) {
    && (forall k :: k in blobs ==> env.start <= k.slot < next && IsRow(env, k, blobs[k]))
    && (forall n: nat, i: nat :: env.start <= n < next && i < |env.sidecars(n)| ==> BlobKey(n, i) in blobs)
  }

  ghost predicate BundleFits(env: Env, next: nat, b: BundleId, row: BundleRow) {
    && env.start <= b.lo <= b.hi < UINT64_LIMIT && b.lo <= next
    && (row.calibrated <==> b.stamp.Some?)
    && (b.stamp.Some? || !row.status.Finalizing? ==> b.hi <= next)
    && (b.stamp.None? && row.status.Finalizing? ==> next <= b.hi)
  }

  /** Bundles past Finalizing reach no further than the next slot; at most one uncalibrated bundle is Finalizing and its end
      is not saved yet. */
  ghost predicate Bundles(env: Env, next: nat, bundles: BundleTable) {
    && (forall b :: b in bundles ==> BundleFits(env, next, b, bundles[b]))
    && (forall b, c :: IsPending(bundles, b) && IsPending(bundles, c) ==> b == c)
  }

  predicate OneRange(b: BundleId, c: BundleId) {
    b.lo == c.lo && b.hi == c.hi
  }

  /** Two bundles of different ranges share at most one slot: the end of the one is the start of the other. */
  ghost predicate Apart(bundles: BundleTable) {
    forall b, c :: b in bundles && c in bundles ==> OneRange(b, c) || b.hi <= c.lo || c.hi <= b.lo
  }

  ghost predicate TablesFit(env: Env, next: nat, db: Tables) {
    && 0 < db.blockSeq && BlockIds(db.blocks, db.blockSeq) && BlobIds(db.blobs, db.blobSeq)
    && Slots(env, next, db.blocks) && Homes(db.blocks, db.bundles) && Counts(env, db.blocks)
    && BlobRows(env, next, db.blobs) && Bundles(env, next, db.bundles) && Apart(db.bundles)
  }

  /** Recorded and no longer Finalizing. */
  ghost predicate Past(bundles: BundleTable, b: BundleId) {
    b in bundles && !bundles[b].status.Finalizing?
  }

  /******* The sync thread *******/

  /** While the process is up, the current bundle is the pending one or not recorded yet, and contains the next slot. */
  ghost predicate Current(env: Env, s: State) {
    && s.detail.Plain() && 0 < s.interval
    && env.start <= s.detail.lo <= s.next <= s.detail.hi < UINT64_LIMIT
    && (forall b :: IsPending(s.db.bundles, b) ==> b == s.detail)
    && (s.detail.lo < s.next ==> s.detail in s.db.bundles)
  }

  /** If the upload directory exists it holds the first `i` blobs of slot n. */
  ghost predicate HasFiles(s: State, n: nat, i: nat) {
    Local(s.detail) in s.dirs ==> Begun(s.dirs[Local(s.detail)], n, i)
  }

  ghost predicate SyncAt(env: Env, s: State) {
    match s.sync
    case SIdle => true
    case SDir(n) => s.up && n == s.next == s.detail.lo
    case SRow(n) => s.up && n == s.next == s.detail.lo
    case SFiles(n, i) => s.up && n == s.next && s.detail in s.db.bundles && i <= |env.sidecars(n)| && HasFiles(s, n, i)
    case SUpload(n) => s.up && n == s.next == s.detail.hi && s.detail in s.db.bundles && HasFiles(s, n, |env.sidecars(n)|)
    case SRemove(n) => s.up && n == s.next == s.detail.hi && s.detail in s.db.bundles && HasFiles(s, n, |env.sidecars(n)|)
    case SMark(n) => s.up && n == s.next == s.detail.hi && s.detail in s.db.bundles && HasFiles(s, n, |env.sidecars(n)|)
    case SSave(n) =>
      && s.up && n == s.next && s.detail in s.db.bundles && HasFiles(s, n, |env.sidecars(n)|)
      && (n == s.detail.hi ==> Past(s.db.bundles, s.detail))
  }

  /** Upload directories hold nothing foreign; the pending and the current bundle's hold all saved slots of their range. */
  ghost predicate SyncDirs(env: Env, s: State) {
    && (forall b: BundleId :: b.Plain() && Local(b) in s.dirs ==> Within(env, s.dirs[Local(b)], b.lo, b.hi))
    && (forall b :: IsPending(s.db.bundles, b) && Local(b) in s.dirs ==> Filled(env, s.dirs[Local(b)], b.lo, s.next))
    && (s.up && Local(s.detail) in s.dirs ==> Filled(env, s.dirs[Local(s.detail)], s.detail.lo, s.next))
  }

  /** The bundles of this run follow each other without gap or overlap up to the current one. */
  ghost predicate Tiled(s: State) {
    && |s.tiles| > 0 && s.tiles[|s.tiles| - 1] == s.detail
    && (forall i :: 0 <= i < |s.tiles| ==> s.tiles[i].lo <= s.tiles[i].hi)
    && (forall i :: 0 <= i < |s.tiles| - 1 ==> s.tiles[i + 1].lo == s.tiles[i].hi + 1)
    && s.tiles[0].lo <= s.runStart <= s.next
  }

  ghost predicate SyncInv(env: Env, s: State) {
    SyncAt(env, s) && SyncDirs(env, s) && (s.up ==> Current(env, s) && Tiled(s))
  }

  /******* The verify thread *******/

  ghost predicate SameBlob(sha: bytes -> bytes, reply: Checks.Reply, sc: Sidecar) {
    reply.Object? && Text.GenerateHash(sha, reply.text) == Text.GenerateHash(sha, sc.blob)
  }

  /** The evidence was found for one block, not for the range of a bundle. */
  predicate OneByOne(e: Evidence) {
    e.BlobsMatched? || e.NoBlobsInBlock?
  }

  /** What the evidence says about slot n. */
  ghost predicate Supports(env: Env, e: Evidence, n: nat) {
    && e.b.Covers(n)
    && match e
       case BundleMatched(b, onChain) =>
         && env.WellFormed()
         && var hashes := Checksum.HashList(env.coding, env.pack(Expected(env, b.lo, b.hi)), env.segmentSize);
         hashes.Some? && Checks.ChecksumsMatch(env.base64, hashes.value, onChain)
       case BlobsMatched(b, replies) =>
         && |replies| == |env.sidecars(n)|
         && forall i :: 0 <= i < |replies| ==> SameBlob(env.coding.sha, replies[i], env.sidecars(n)[i])
       case NoBlobsInBlock(b) => env.sidecars(n) == []
       case NoBlobsInBundle(b, upTo) => if n < upTo then env.sidecars(n) == [] else n == b.hi
  }

  /** The block being verified is the earliest Processed one. */
  ghost predicate Reading(db: Tables, v: nat, b: BundleId) {
    IsEarliestUnverified(db.blocks, v) && db.blocks[v].bundle == b && b.Covers(v)
  }

  ghost predicate Picked(db: Tables, v: nat, b: BundleId) {
    Reading(db, v, b) && Past(db.bundles, b)
  }

  /** The replacement has the range of the bundle it replaces. */
  ghost predicate Replaces(nb: BundleId, b: BundleId) {
    nb.stamp.Some? && nb.lo == b.lo && nb.hi == b.hi
  }

  /** Blocks of [b.lo, n) with a block on the chain are under the new name and Processed. */
  ghost predicate Moved(env: Env, blocks: BlockTable, b: BundleId, nb: BundleId, n: nat) {
    forall m: nat :: b.lo <= m < n && !env.forked(m) ==> m in blocks && blocks[m].bundle == nb && blocks[m].status.Processed?
  }

  ghost predicate BlobsKept(before: BlobTable, after: BlobTable) {
    forall k :: k in before ==> k in after && after[k] == before[k]
  }

  /** Compared with the tables as the re-upload found them: blocks keep their ids, nothing changed outside [b.lo, n) or where
      the chain has no block, and no blob row changed. */
  ghost predicate Preserved(env: Env, before: Tables, db: Tables, b: BundleId, n: nat) {
    && (forall m :: m in before.blocks ==>
          && m in db.blocks && db.blocks[m].id == before.blocks[m].id
          && (!(b.lo <= m < n) || env.forked(m) ==> db.blocks[m] == before.blocks[m]))
    && BlobsKept(before.blobs, db.blobs)
  }

  ghost predicate MovedTo(env: Env, s: State, b: BundleId, nb: BundleId, n: nat) {
    && Past(s.db.bundles, b) && nb in s.db.bundles && Replaces(nb, b) && b.lo <= b.hi
    && Moved(env, s.db.blocks, b, nb, n) && Preserved(env, s.before, s.db, b, n)
  }

  ghost predicate Collected(env: Env, s: State, d: DirId, lo: nat, n: nat, i: nat) {
    d in s.dirs && Filled(env, s.dirs[d], lo, n) && Begun(s.dirs[d], n, i)
  }

  ghost predicate VerAt(env: Env, s: State) {
    match s.ver
    case VIdle => true
    case VRead(v, b) => s.up && Reading(s.db, v, b)
    case VPicked(v, b) => s.up && Picked(s.db, v, b)
    case VScratch(v, b, n, i) =>
      s.up && Picked(s.db, v, b) && b.Covers(n) && i <= |env.sidecars(n)| && Collected(env, s, Scratch(b), b.lo, n, i)
    case VCompare(v, b) => s.up && Picked(s.db, v, b) && Collected(env, s, Scratch(b), b.lo, b.hi + 1, 0)
    case VMarkRange(v, b, e) =>
      && s.up && Picked(s.db, v, b) && e.b == b && !OneByOne(e)
      && forall n: nat :: b.Covers(n) ==> Supports(env, e, n)
    case VMarkOne(v, b, e) => s.up && Picked(s.db, v, b) && e.b == b && OneByOne(e) && Supports(env, e, v)
    case VSeal(v, b, e) => s.up && Past(s.db.bundles, b)
    case VLeave(v, b) => s.up
    case RDeprecate(v, b) => s.up && Picked(s.db, v, b)
    case RDir(v, b, nb) =>
      s.up && Picked(s.db, v, b) && Replaces(nb, b) && Preserved(env, s.before, s.db, b, b.lo)
    case RRow(v, b, nb) =>
      && s.up && Picked(s.db, v, b) && Replaces(nb, b) && Preserved(env, s.before, s.db, b, b.lo)
      && Local(nb) in s.dirs
    case RFiles(v, b, nb, n, i) =>
      s.up && MovedTo(env, s, b, nb, n) && b.Covers(n) && i <= |env.sidecars(n)| && Collected(env, s, Local(nb), b.lo, n, i)
    case RSave(v, b, nb, n) =>
      && s.up && MovedTo(env, s, b, nb, n) && b.Covers(n) && !env.forked(n)
      && Collected(env, s, Local(nb), b.lo, n, |env.sidecars(n)|)
    case RUpload(v, b, nb) => s.up && MovedTo(env, s, b, nb, b.hi + 1) && Collected(env, s, Local(nb), b.lo, b.hi + 1, 0)
    case RRemove(v, b, nb) => s.up && MovedTo(env, s, b, nb, b.hi + 1)
    case RMark(v, b, nb) => s.up && MovedTo(env, s, b, nb, b.hi + 1)
  }

  ghost predicate VerDirs(env: Env, dirs: map<DirId, Dir>) {
    forall d: DirId :: d in dirs && (d.Scratch? || d.b.stamp.Some?) ==> Within(env, dirs[d], d.b.lo, d.b.hi)
  }

  /** Every Verified block has evidence that supports it. */
  ghost predicate Evident(env: Env, blocks: BlockTable, evidence: map<nat, Evidence>) {
    forall n :: n in blocks && blocks[n].status.Verified? ==> n in evidence && Supports(env, evidence[n], n)
  }

  /** The evidence for a Verified block is about a recorded bundle, and if the block was checked on its own, about the bundle
      it names. */
  ghost predicate Named(db: Tables, evidence: map<nat, Evidence>) {
    forall n :: n in db.blocks && db.blocks[n].status.Verified? && n in evidence ==> NamedBy(db, evidence[n], n)
  }

  ghost predicate NamedBy(db: Tables, e: Evidence, n: nat) {
    n in db.blocks && e.b in db.bundles && (OneByOne(e) ==> e.b == db.blocks[n].bundle)
  }

  /** No Verified block lies above a Processed one. */
  ghost predicate Frontier(blocks: BlockTable) {
    forall x, y :: x in blocks && y in blocks && y < x && blocks[y].status.Processed? ==> !blocks[x].status.Verified?
  }

  /** While slots [b.lo, n) have been dealt with: nothing below the range is Processed, nothing above it is Verified, and only
      moved slots may lie Processed below Verified ones. */
  ghost predicate OpenFrontier(env: Env, blocks: BlockTable, b: BundleId, n: nat) {
    && (forall y :: y in blocks && y < b.lo ==> !blocks[y].status.Processed?)
    && (forall x :: x in blocks && blocks[x].status.Verified? ==> x <= b.hi)
    && (forall x, y :: x in blocks && y in blocks && y < x && blocks[x].status.Verified? && blocks[y].status.Processed? ==>
          b.lo <= y < n && !env.forked(y))
  }

  ghost predicate FrontierAt(env: Env, s: State) {
    s.torn || if Moving(s.ver) then OpenFrontier(env, s.db.blocks, s.ver.b, s.ver.n) else Frontier(s.db.blocks)
  }

  ghost predicate VerInv(env: Env, s: State) {
    && VerAt(env, s) && VerDirs(env, s.dirs) && Evident(env, s.db.blocks, s.evidence) && Named(s.db, s.evidence)
    && FrontierAt(env, s)
  }

  /** Whatever was uploaded is complete and exact. */
  ghost predicate Uploaded(env: Env, uploads: set<Upload>) {
    forall u :: u in uploads ==> u.content == Expected(env, u.b.lo, u.b.hi) && u.content != map[]
  }

  ghost predicate Inv(env: Env, s: State) {
    && TablesFit(env, s.next, s.db)
    && SyncInv(env, s)
    && VerInv(env, s)
    && Uploaded(env, s.uploads)
  }

  /******* Facts about directories *******/

  lemma {:induction false} SlotFilesHold(env: Env, n: nat, i: nat)
    requires i <= |env.sidecars(n)|
    ensures forall k :: k in SlotFiles(env, n, i) <==> k.slot == n && 0 <= k.idx < i
    ensures forall j :: 0 <= j < i ==> SlotFiles(env, n, i)[BlobKey(n, j)] == env.sidecars(n)[j].blob
    decreases i
  {
    if i > 0 {
      SlotFilesHold(env, n, i - 1);
    }
  }

  lemma {:induction false} ExpectedHolds(env: Env, lo: nat, hi: int)
    requires -1 <= hi
    ensures forall k :: k in Expected(env, lo, hi) <==> lo <= k.slot <= hi && 0 <= k.idx < |env.sidecars(k.slot)|
    ensures forall k :: k in Expected(env, lo, hi) ==> Expected(env, lo, hi)[k] == env.sidecars(k.slot)[k.idx].blob
    decreases hi
  {
    if hi >= lo {
      ExpectedHolds(env, lo, hi - 1);
      SlotFilesHold(env, hi, |env.sidecars(hi)|);
      var last := SlotFiles(env, hi, |env.sidecars(hi)|);
      assert Expected(env, lo, hi) == Expected(env, lo, hi - 1) + last;
      forall k | k in last ensures last[k] == env.sidecars(k.slot)[k.idx].blob {
        assert k == BlobKey(hi, k.idx);
      }
    }
  }

  /** A directory is the expected one exactly when it holds every blob of the range and nothing else. */
  lemma {:induction false} ExactDirectory(env: Env, d: Dir, lo: nat, hi: nat)
    ensures d == Expected(env, lo, hi) <==> Within(env, d, lo, hi) && Filled(env, d, lo, hi + 1)
  {
    ExpectedHolds(env, lo, hi);
    var e := Expected(env, lo, hi);
    if Within(env, d, lo, hi) && Filled(env, d, lo, hi + 1) {
      forall k ensures k in d <==> k in e {
        if k in e {
          assert BlobKey(k.slot, k.idx) == k;
        }
      }
      assert d == e;
    }
  }

  /** Writing one more file of the slot keeps the directory free of anything foreign. */
  lemma {:induction false} OneMoreFile(env: Env, d: Dir, lo: nat, hi: nat, n: nat, i: nat)
    requires lo <= n <= hi && i < |env.sidecars(n)|
    ensures var d' := d[BlobKey(n, i) := env.sidecars(n)[i].blob];
      && (Within(env, d, lo, hi) ==> Within(env, d', lo, hi))
      && (Filled(env, d, lo, n) ==> Filled(env, d', lo, n))
      && (Begun(d, n, i) ==> Begun(d', n, i + 1))
  {
  }

  /** All files of slot n written means the directory is filled up to and including n. */
  lemma {:induction false} SlotDone(env: Env, d: Dir, lo: nat, n: nat)
    requires Filled(env, d, lo, n) && Begun(d, n, |env.sidecars(n)|)
    ensures Filled(env, d, lo, n + 1)
  {
  }
}
