/** What the archive guarantees, for every reachable state of the protocol. */
module Theorems {
  import opened Types
  import opened Dao
  import opened Protocol
  import opened Invariant
  import opened Frames
  import opened Safety
  import Checks
  import Checksum
  import Names
  import SyncSteps
  import BundleSteps
  import VerifySteps
  import Chain
  import Text

  /******* Progress *******/

  /** The saved slots are one contiguous interval from the configured start, each stored once, and the slot the code computes
      next is the first one beyond it. */
  lemma {:induction false} ContiguousProgress(env: Env, s: State)
    requires env.WellFormed() && Reachable(env, s)
    ensures var next := NextBlockNumOrSlot(s.db.blocks, env.start);
      && env.start <= next
      && (forall n: nat :: n in s.db.blocks <==> env.start <= n < next)
      && (forall n :: n in s.db.blocks ==> s.db.blocks[n].slot == n && !s.db.blocks[n].status.Skipped?)
      && (forall m, n :: m in s.db.blocks && n in s.db.blocks && m != n ==> s.db.blocks[m].id != s.db.blocks[n].id)
  {
    ReachableHolds(env, s);
    SyncSteps.NextIsComputed(env, s.next, s.db.blocks);
  }

  lemma {:induction false} RowHasColumns(env: Env, k: BlobKey, row: BlobRow)
    requires env.WellFormed() && IsRow(env, k, row)
    ensures Chain.HasColumns(env.eth, k.slot, env.sidecars(k.slot), env.txs(k.slot), k.idx, row)
  {
    hide Chain.ToBlobs;
    Chain.ToBlobsShape(env.eth, k.slot, env.sidecars(k.slot), env.txs(k.slot));
    Chain.ToBlobsColumns(env.eth, k.slot, env.sidecars(k.slot), env.txs(k.slot), k.idx);
    var made := Rows(env, k.slot).value[k.idx];
    forall t: nat | Chain.Owns(env.txs(k.slot), t, k.idx) ensures Chain.OwnerShown(env.txs(k.slot), t, k.idx, row) {
      assert Chain.OwnerShown(env.txs(k.slot), t, k.idx, made);
    }
  }

  lemma {:induction false} IsRowInRange(env: Env, k: BlobKey, row: BlobRow)
    requires IsRow(env, k, row)
    ensures 0 <= k.idx < |env.sidecars(k.slot)|
  {
  }

  /** The block row of every saved slot has the header the chain has, all fields empty for a slot without beacon block, and the
      number of its blobs. */
  lemma {:induction false} BlockRowsCarryTheChain(env: Env, s: State, n: nat)
    requires env.WellFormed() && Reachable(env, s) && n in s.db.blocks
    ensures var row := s.db.blocks[n]; var h := row.header;
      && row.slot == n && row.blobCount == |env.sidecars(n)|
      && (!env.forked(n) ==> h == env.header(n))
      && (env.forked(n) ==>
            && row.blobCount == 0 && h.root == h.parentRoot == h.stateRoot == h.bodyRoot == h.signature == ""
            && h.proposerIndex == h.elHeight == 0)
  {
    ReachableHolds(env, s);
  }

  /** Every saved slot has one row for each of its blobs, with the columns of the chain, and no row belongs to another slot. */
  lemma {:induction false} BlobRowsAreComplete(env: Env, s: State)
    requires env.WellFormed() && Reachable(env, s)
    ensures forall n: nat, i: nat :: n in s.db.blocks && i < |env.sidecars(n)| ==>
      && BlobKey(n, i) in s.db.blobs
      && Chain.HasColumns(env.eth, n, env.sidecars(n), env.txs(n), i, s.db.blobs[BlobKey(n, i)])
    ensures forall k :: k in s.db.blobs ==> k.slot in s.db.blocks && 0 <= k.idx < |env.sidecars(k.slot)|
    ensures forall n :: n in s.db.blocks ==> |RowsAt(s.db.blobs, n)| == s.db.blocks[n].blobCount == |env.sidecars(n)|
  {
    hide Chain.HasColumns, IsRow;
    ReachableHolds(env, s);
    forall n: nat, i: nat | n in s.db.blocks && i < |env.sidecars(n)|
      ensures BlobKey(n, i) in s.db.blobs
      ensures Chain.HasColumns(env.eth, n, env.sidecars(n), env.txs(n), i, s.db.blobs[BlobKey(n, i)])
    {
      RowHasColumns(env, BlobKey(n, i), s.db.blobs[BlobKey(n, i)]);
    }
    forall k | k in s.db.blobs ensures k.slot in s.db.blocks && 0 <= k.idx < |env.sidecars(k.slot)| {
      RowHasColumns(env, k, s.db.blobs[k]);
      IsRowInRange(env, k, s.db.blobs[k]);
    }
    forall n | n in s.db.blocks ensures |RowsAt(s.db.blobs, n)| == |env.sidecars(n)| {
      RowsAtDense(s.db.blobs, n, |env.sidecars(n)|);
    }
  }

  /** After every restart the next slot lies in the current bundle, and the restart wrote nothing: no block was skipped and
      no bundle deprecated. The current bundle is the pending one, or a new one of the configured length. */
  lemma {:induction false} RestartResumes(env: Env, s: State, interval: nat, detailed: bool, t: State)
    requires env.WellFormed() && Reachable(env, s) && Next(env, s, Restart(interval, detailed)) == Some(t)
    ensures t.db == s.db && t.detail.lo <= NextBlockNumOrSlot(t.db.blocks, env.start) <= t.detail.hi
    ensures forall b :: IsPending(s.db.bundles, b) ==> t.detail == b
    ensures (forall b :: !IsPending(s.db.bundles, b)) ==> IsFirst(t.detail, NextBlockNumOrSlot(s.db.blocks, env.start), interval)
  {
    ReachableHolds(env, s);
    RestartStep(env, s, interval, detailed, t);
    SyncSteps.NextIsComputed(env, s.next, s.db.blocks);
    ResumesInside(env, s.next, s.db, interval);
  }

  /** LoadProgressAndResume skips exactly when the next slot is past the end of the pending bundle, which takes a configured
      start beyond it: then the saved slots of that bundle become Skipped, the bundle Deprecated, and a new one starts at the
      next slot. Otherwise the pending bundle goes on and nothing is written. */
  lemma {:induction false} SkipsExactlyPastTheEnd(db: Tables, next: nat, interval: nat, b: BundleId)
    requires b in db.bundles
    ensures var (t, detail) := Resume(db, next, interval, Some(b));
      if next <= b.hi then t == db && detail.lo == b.lo && detail.hi == b.hi
      else
        && (forall n :: n in t.blocks <==> n in db.blocks)
        && (forall n :: n in db.blocks ==>
              t.blocks[n] == if b.Covers(n) then db.blocks[n].(status := Skipped) else db.blocks[n])
        && t.blobs == db.blobs && t.bundles == db.bundles[b := db.bundles[b].(status := BundleStatus.Deprecated)]
        && IsFirst(detail, next, interval)
  {
  }

  /** A new bundle of the configured length; length 0 is taken for 1. */
  predicate IsFirst(b: BundleId, next: nat, interval: nat) {
    b.Plain() && b.lo == next && b.hi - b.lo + 1 == if interval == 0 then 1 else interval
  }

  /** Without pending bundle nothing is written and a new bundle of the configured length starts at the next slot. */
  lemma {:induction false} StartsWithoutPending(db: Tables, next: nat, interval: nat)
    ensures var (t, detail) := Resume(db, next, interval, None); t == db && IsFirst(detail, next, interval)
  {
  }

  /** At most one uncalibrated bundle is Finalizing, it contains the next slot, and its end is not saved. */
  lemma {:induction false} OnePendingBundle(env: Env, s: State, b: BundleId)
    requires env.WellFormed() && Reachable(env, s) && IsPending(s.db.bundles, b)
    ensures forall c :: IsPending(s.db.bundles, c) ==> c == b
    ensures b.lo <= NextBlockNumOrSlot(s.db.blocks, env.start) <= b.hi && b.hi !in s.db.blocks
    ensures s.up ==> s.detail == b
  {
    ReachableHolds(env, s);
    SyncSteps.NextIsComputed(env, s.next, s.db.blocks);
    assert BundleFits(env, s.next, b, s.db.bundles[b]);
  }

  /** Once past Finalizing, a bundle never goes back. */
  lemma {:induction false} PastFinalizingForGood(env: Env, s: State, a: Action, t: State, b: BundleId)
    requires env.WellFormed() && Reachable(env, s) && Next(env, s, a) == Some(t) && Past(s.db.bundles, b)
    ensures Past(t.db.bundles, b)
  {
    hide Next, Inv;
    ReachableHolds(env, s);
    if OfProcess(a) {
      RestartKeepsTables(env, s, a, t);
    } else if OfSyncer(a) {
      SyncerActs(env, s, a, t);
      SyncKeeps(env, s, a, t);
    } else {
      ActsWhileUp(env, s, a, t);
      VerifyKeeps(env, s, a, t);
    }
  }

  /******* Ranges *******/

  /** The bundle name on every saved block parses to a range that contains the block's slot. */
  lemma {:induction false} NamesCoverSlots(env: Env, s: State, n: nat)
    requires env.WellFormed() && Reachable(env, s) && n in s.db.blocks
    ensures var b := s.db.blocks[n].bundle;
      && b in s.db.bundles
      && Names.ParseBundleName(Names.BundleName(b)) == Names.Pair(b.lo, b.hi)
      && b.lo <= n <= b.hi
  {
    ReachableHolds(env, s);
    var b := s.db.blocks[n].bundle;
    assert BundleFits(env, s.next, b, s.db.bundles[b]);
    Names.BundleNameRoundTrip(b);
  }

  lemma {:induction false} TilesAscend(tiles: seq<BundleId>, i: nat, j: nat)
    requires i < j < |tiles|
    requires forall k :: 0 <= k < |tiles| ==> tiles[k].lo <= tiles[k].hi
    requires forall k :: 0 <= k < |tiles| - 1 ==> tiles[k + 1].lo == tiles[k].hi + 1
    ensures tiles[i].hi < tiles[j].lo
    decreases j
  {
    if i < j - 1 {
      TilesAscend(tiles, i, j - 1);
    }
  }

  lemma {:induction false} TileExists(tiles: seq<BundleId>, n: nat, last: nat)
    requires last < |tiles| && tiles[0].lo <= n <= tiles[last].hi
    requires forall k :: 0 <= k < |tiles| - 1 ==> tiles[k + 1].lo == tiles[k].hi + 1
    ensures exists i :: 0 <= i <= last && tiles[i].Covers(n)
    decreases last
  {
    if n >= tiles[last].lo {
      assert tiles[last].Covers(n);
    } else {
      TileExists(tiles, n, last - 1);
    }
  }

  /** Within one run the bundles tile the slots: every slot saved since the restart lies in exactly one of them. */
  lemma {:induction false} RunTilesSlots(env: Env, s: State, n: nat)
    requires env.WellFormed() && Reachable(env, s) && s.up && s.runStart <= n < s.next
    ensures exists i :: 0 <= i < |s.tiles| && s.tiles[i].Covers(n)
    ensures forall i, j :: 0 <= i < |s.tiles| && 0 <= j < |s.tiles| && s.tiles[i].Covers(n) && s.tiles[j].Covers(n) ==> i == j
  {
    ReachableHolds(env, s);
    TileExists(s.tiles, n, |s.tiles| - 1);
    forall i, j | 0 <= i < |s.tiles| && 0 <= j < |s.tiles| && s.tiles[i].Covers(n) && s.tiles[j].Covers(n) ensures i == j {
      if i < j {
        TilesAscend(s.tiles, i, j);
      } else if j < i {
        TilesAscend(s.tiles, j, i);
      }
    }
  }

  /** A save stores exactly one more slot, the next one, under the last tile of the run, Processed and with all its blob rows;
      nothing saved before changes. */
  lemma {:induction false} SaveUsesTile(env: Env, s: State, t: State)
    requires env.WellFormed() && Reachable(env, s) && Next(env, s, Save) == Some(t)
    ensures var n := NextBlockNumOrSlot(s.db.blocks, env.start);
      && n !in s.db.blocks && s.detail.Covers(n) && s.tiles != [] && s.tiles[|s.tiles| - 1] == s.detail
      && t.db.blocks == s.db.blocks[n := BlockOf(env, n, s.detail).(id := s.db.blockSeq)] && t.next == n + 1
      && BlobRows(env, n + 1, t.db.blobs)
      && BlobsGrow(s.db.blobs, t.db.blobs, n)
      && (n == s.detail.hi ==>
            t.detail.lo == n + 1 && t.detail.hi == n + s.interval && t.detail.Plain() && t.tiles == s.tiles + [t.detail])
      && (n != s.detail.hi ==> t.detail == s.detail && t.tiles == s.tiles)
  {
    hide Next, SyncNext, Rows, SaveBlockAndBlob, BlockOf, Reachable, SyncAt, Current;
    SyncerActs(env, s, Save, t);
    SyncSteps.SaveMeans(env, s, t);
    BeforeSaving(env, s);
    SyncSteps.SaveTables(env, s, t);
    SyncSteps.NextIsComputed(env, s.next, s.db.blocks);
    assert BlobRows(env, t.next, t.db.blobs);
  }

  lemma {:induction false} BeforeSaving(env: Env, s: State)
    requires env.WellFormed() && Reachable(env, s) && s.sync.SSave?
    ensures TablesFit(env, s.next, s.db) && SyncAt(env, s) && Current(env, s) && Slots(env, s.next, s.db.blocks)
    ensures s.next !in s.db.blocks && s.detail.Covers(s.next) && s.tiles != [] && s.tiles[|s.tiles| - 1] == s.detail
  {
    ReachableHolds(env, s);
  }

  /******* Contents *******/

  /** Whatever was uploaded under a bundle's name is exactly the blobs of the bundle's slots, by name, whatever retries and
      restarts came before. */
  lemma {:induction false} UploadsAreExact(env: Env, s: State, u: Upload)
    requires env.WellFormed() && Reachable(env, s) && u in s.uploads
    ensures u.content != map[]
    ensures forall k :: k in u.content <==> u.b.lo <= k.slot <= u.b.hi && 0 <= k.idx < |env.sidecars(k.slot)|
    ensures forall k :: k in u.content ==> u.content[k] == env.sidecars(k.slot)[k.idx].blob
  {
    ReachableHolds(env, s);
    ExpectedHolds(env, u.b.lo, u.b.hi);
  }

  lemma {:induction false} RecordedMatch(base64: bytes -> string, hashes: seq<bytes>)
    ensures Checks.ChecksumsMatch(base64, hashes, Checks.Recorded(base64, hashes))
  {
  }

  lemma {:induction false} CompareMeans(env: Env, s: State, onChain: seq<string>, hashes: seq<bytes>)
    requires env.WellFormed() && s.up && s.ver.VCompare? && Scratch(s.ver.b) in s.dirs && s.dirs[Scratch(s.ver.b)] != map[]
    requires Checksum.HashList(env.coding, env.pack(s.dirs[Scratch(s.ver.b)]), env.segmentSize) == Some(hashes)
    requires Checks.ChecksumsMatch(env.base64, hashes, onChain)
    ensures Next(env, s, Compare(onChain)) == Some(s.(ver := VMarkRange(s.ver.v, s.ver.b, BundleMatched(s.ver.b, onChain))))
  {
  }

  /** An honestly stored bundle never fails verification: the checksums recorded for what was uploaded match. */
  lemma {:induction false} HonestBundlePasses(env: Env, s: State, u: Upload, hashes: seq<bytes>)
    requires env.WellFormed() && Reachable(env, s) && s.ver.VCompare?
    requires u in s.uploads && u.b.lo == s.ver.b.lo && u.b.hi == s.ver.b.hi
    requires Checksum.HashList(env.coding, env.pack(u.content), env.segmentSize) == Some(hashes)
    ensures var onChain := Checks.Recorded(env.base64, hashes);
      Next(env, s, Compare(onChain)) == Some(s.(ver := VMarkRange(s.ver.v, s.ver.b, BundleMatched(s.ver.b, onChain))))
  {
    assert s.up && Scratch(s.ver.b) in s.dirs && u.content == s.dirs[Scratch(s.ver.b)] != map[] by {
      ReachableHolds(env, s);
      VerifySteps.RebuildIsExact(env, s);
    }
    RecordedMatch(env.base64, hashes);
    CompareMeans(env, s, Checks.Recorded(env.base64, hashes), hashes);
  }

  /** A count mismatch between stored rows and the chain cannot occur. */
  lemma {:induction false} CountsNeverDiffer(env: Env, s: State)
    requires env.WellFormed() && Reachable(env, s)
    ensures Next(env, s, CountOff).None?
  {
    hide Next, VerifyNext, RowsAt, Reachable;
    if Next(env, s, CountOff).Some? {
      CountOffMeans(env, s);
      assert s.ver.v in s.db.blocks by { PickedIsSaved(env, s); }
      BlobRowsAreComplete(env, s);
    }
  }

  lemma {:induction false} CountOffMeans(env: Env, s: State)
    requires Next(env, s, CountOff).Some?
    ensures s.ver.VPicked? && |RowsAt(s.db.blobs, s.ver.v)| != |env.sidecars(s.ver.v)|
  {
  }

  lemma {:induction false} PickedIsSaved(env: Env, s: State)
    requires env.WellFormed() && Reachable(env, s) && s.ver.VPicked?
    ensures s.ver.v in s.db.blocks
  {
    ReachableHolds(env, s);
  }

  /******* Verified blocks *******/

  /** Every Verified block has evidence: a check that succeeded for a bundle whose range covers its slot. */
  lemma {:induction false} VerifiedHasEvidence(env: Env, s: State, n: nat)
    requires env.WellFormed() && Reachable(env, s) && n in s.db.blocks && s.db.blocks[n].status.Verified?
    ensures n in s.evidence && Supports(env, s.evidence[n], n)
  {
    ReachableHolds(env, s);
  }

  /** If the chain has blobs for a Verified slot, they were compared, bundle-wise or one by one, unless the slot is the end of
      a bundle that was found without blobs before that slot was saved. */
  lemma {:induction false} VerifiedBlobsWereCompared(env: Env, s: State, n: nat)
    requires env.WellFormed() && Reachable(env, s) && n in s.db.blocks && s.db.blocks[n].status.Verified?
    requires env.sidecars(n) != []
    ensures n in s.evidence
    ensures var e := s.evidence[n];
      e.BundleMatched? || e.BlobsMatched? || (e.NoBlobsInBundle? && e.upTo <= n == e.b.hi)
  {
    ReachableHolds(env, s);
  }

  /** Texts that differ only in case stand for the same digest, for these digests. */
  ghost predicate CaseTells(base64: bytes -> string, a: seq<bytes>, b: seq<bytes>) {
    forall i :: 0 <= i < |a| && i < |b| && Text.SameButCase(base64(a[i]), base64(b[i])) ==> a[i] == b[i]
  }

  ghost function RebuiltObject(env: Env, b: BundleId): bytes {
    env.pack(Expected(env, b.lo, b.hi))
  }

  /** A block Verified bundle-wise: if the chain recorded the checksums of object x, then x is the bundle of exactly the blobs
      of the range, up to hash collisions and digests that differ only in the case of their base64 text. */
  lemma {:induction false} MatchedBundleIsIntact(env: Env, s: State, n: nat, x: bytes)
    requires env.WellFormed() && Reachable(env, s) && n in s.db.blocks && s.db.blocks[n].status.Verified?
    requires n in s.evidence && s.evidence[n].BundleMatched?
    requires var hashes := Checksum.HashList(env.coding, x, env.segmentSize);
      hashes.Some? && s.evidence[n].onChain == Checks.Recorded(env.base64, hashes.value)
    requires var rebuilt := Checksum.HashList(env.coding, RebuiltObject(env, s.evidence[n].b), env.segmentSize);
      rebuilt.Some? ==> CaseTells(env.base64, rebuilt.value, Checksum.HashList(env.coding, x, env.segmentSize).value)
    requires Checksum.NoCollision(env.coding.sha,
      Checksum.HashedFor(env.coding.sha, x, env.segmentSize) +
      Checksum.HashedFor(env.coding.sha, RebuiltObject(env, s.evidence[n].b), env.segmentSize))
    ensures s.evidence[n].b.Covers(n) && x == RebuiltObject(env, s.evidence[n].b)
  {
    VerifiedHasEvidence(env, s, n);
    var y := RebuiltObject(env, s.evidence[n].b);
    var stored := Checksum.HashList(env.coding, x, env.segmentSize).value;
    var rebuilt := Checksum.HashList(env.coding, y, env.segmentSize).value;
    assert Checks.ChecksumsMatch(env.base64, rebuilt, Checks.Recorded(env.base64, stored));
    assert rebuilt == stored;
    Checksum.HashListIdentifiesContent(env.coding, x, y, env.segmentSize);
  }

  /** A block Verified blob by blob: every object the bundle service returned is the chain's blob, up to prefix and the case of
      hexadecimal digits. */
  lemma {:induction false} MatchedBlobsAreIntact(env: Env, s: State, n: nat, i: nat)
    requires env.WellFormed() && Reachable(env, s) && n in s.db.blocks && s.db.blocks[n].status.Verified?
    requires n in s.evidence && s.evidence[n].BlobsMatched? && i < |env.sidecars(n)|
    requires Text.IsHex(Text.Digits(env.sidecars(n)[i].blob))
    requires i < |s.evidence[n].replies| && s.evidence[n].replies[i].Object? ==>
      Checks.TellsApart(env.coding.sha, s.evidence[n].replies[i].text, env.sidecars(n)[i].blob)
    ensures |s.evidence[n].replies| == |env.sidecars(n)| && s.evidence[n].replies[i].Object?
    ensures Text.SameHex(s.evidence[n].replies[i].text, env.sidecars(n)[i].blob)
  {
    VerifiedHasEvidence(env, s, n);
    var replies := s.evidence[n].replies;
    assert SameBlob(env.coding.sha, replies[i], env.sidecars(n)[i]);
    Checks.HashesAgreeExactly(env.coding.sha, replies[i].text, env.sidecars(n)[i].blob);
  }

  lemma {:induction false} SaveCanHappen(env: Env, s: State)
    requires env.WellFormed() && s.up && s.sync.SSave? && s.sync.n + s.interval < UINT64_LIMIT
    ensures Next(env, s, Save).Some? && Next(env, s, Save).value.ver == s.ver && Next(env, s, Save).value.up
  {
    Chain.ToBlobsShape(env.eth, s.sync.n, env.sidecars(s.sync.n), env.txs(s.sync.n));
  }

  lemma {:induction false} MarkRangeMeans(env: Env, s: State, n: nat)
    requires s.up && s.ver.VMarkRange? && n in s.db.blocks && s.ver.b.Covers(n)
    ensures Next(env, s, MarkRange).Some?
    ensures var t := Next(env, s, MarkRange).value;
      n in t.db.blocks && t.db.blocks[n].status.Verified? && n in t.evidence && t.evidence[n] == s.ver.e
  {
  }

  /** That exception is real: the end slot saved between the look-up and the marking becomes Verified unchecked. */
  lemma {:induction false} EndSlotSlipsThrough(env: Env, s: State)
    requires env.WellFormed() && Reachable(env, s)
    requires s.sync == SSave(s.detail.hi) && env.sidecars(s.detail.hi) != [] && s.detail.hi + s.interval < UINT64_LIMIT
    requires s.ver.VMarkRange? && s.ver.b == s.detail && s.ver.e.NoBlobsInBundle?
    ensures Next(env, s, Save).Some? && Next(env, Next(env, s, Save).value, MarkRange).Some?
    ensures var u := Next(env, Next(env, s, Save).value, MarkRange).value; var n := s.detail.hi;
      n in u.db.blocks && u.db.blocks[n].status.Verified? && n in u.evidence && u.evidence[n].NoBlobsInBundle?
  {
    assert s.up && s.next == s.detail.hi && s.detail.Covers(s.detail.hi) by {
      ReachableHolds(env, s);
    }
    SaveCanHappen(env, s);
    var t := Next(env, s, Save).value;
    assert s.detail.hi in t.db.blocks by {
      ReachableHolds(env, s);
      SyncSteps.SaveMeans(env, s, t);
      SyncSteps.SaveTables(env, s, t);
    }
    MarkRangeMeans(env, t, s.detail.hi);
  }

  /** No Verified block lies above a Processed one while no re-upload is moving slots, unless an earlier one ended with a Verified
      slot of its range above a moved one. */
  lemma {:induction false} VerificationFrontier(env: Env, s: State)
    requires env.WellFormed() && Reachable(env, s) && !s.torn && !Moving(s.ver)
    ensures Frontier(s.db.blocks)
  {
    ReachableHolds(env, s);
  }

  lemma {:induction false} StopTears(env: Env, s: State, a: Action, t: State)
    requires (a == Stop || a == Crash) && Next(env, s, a) == Some(t)
    ensures t.db == s.db && t.ver.VIdle? && t.torn == TornByStop(env, s)
  {
    hide Broken;
  }

  lemma {:induction false} SlotTears(env: Env, s: State, a: Action, t: State)
    requires Moving(s.ver) && a != Stop && OfVerifier(a) && ReuploadNext(env, s, a) == Some(t)
    ensures t.torn == s.torn || (t.ver == Following(s.ver) && t.torn == TornBySlot(env, s, t.db.blocks))
    ensures !Moving(t.ver) ==> t.ver == Following(s.ver) && t.torn == TornBySlot(env, s, t.db.blocks)
  {
    hide Broken, SaveBlockAndBlob;
  }

  lemma {:induction false} ReuploadActs(env: Env, s: State, a: Action, t: State)
    requires OfVerifier(a) && a != Stop && Reuploading(s.ver) && Next(env, s, a) == Some(t)
    ensures ReuploadNext(env, s, a) == Some(t)
  {
    hide ReuploadNext, VerifyNext, SyncNext;
  }

  lemma {:induction false} CheckActs(env: Env, s: State, a: Action, t: State)
    requires OfVerifier(a) && !Reuploading(s.ver) && Next(env, s, a) == Some(t)
    ensures VerifyNext(env, s, a) == Some(t)
  {
    hide ReuploadNext, VerifyNext, SyncNext;
  }

  lemma {:induction false} SyncerDoesNotTear(env: Env, s: State, a: Action, t: State)
    requires SyncNext(env, s, a) == Some(t)
    ensures t.torn == s.torn
  {
  }

  lemma {:induction false} ChecksDoNotTear(env: Env, s: State, a: Action, t: State)
    requires a != Stop && VerifyNext(env, s, a) == Some(t)
    ensures t.torn == s.torn
  {
    hide Written;
  }

  lemma {:induction false} ReuploadEndsDoNotTear(env: Env, s: State, a: Action, t: State)
    requires !Moving(s.ver) && ReuploadNext(env, s, a) == Some(t)
    ensures t.torn == s.torn
  {
    hide Written;
  }

  lemma {:induction false} OthersDoNotTear(env: Env, s: State, a: Action, t: State)
    requires a != Stop && a != Crash && Next(env, s, a) == Some(t)
    requires !(Moving(s.ver) && OfVerifier(a))
    ensures t.torn == s.torn
  {
    hide VerifyNext, ReuploadNext, SyncNext;
    if OfSyncer(a) {
      SyncerActs(env, s, a, t);
      SyncerDoesNotTear(env, s, a, t);
    } else if OfVerifier(a) {
      if Reuploading(s.ver) {
        ReuploadActs(env, s, a, t);
        ReuploadEndsDoNotTear(env, s, a, t);
      } else {
        CheckActs(env, s, a, t);
        ChecksDoNotTear(env, s, a, t);
      }
    }
  }

  lemma {:induction false} BrokenIsBroken(env: Env, blocks: BlockTable, b: BundleId, nb: BundleId, n: nat)
    requires Moved(env, blocks, b, nb, n) && Broken(env, blocks, b, n)
    ensures !Frontier(blocks)
  {
    var y: nat, x: nat :| Overtaken(env, blocks, b, n, y, x);
    assert blocks[y].status.Processed?;
  }

  lemma {:induction false} MovedWhileMoving(env: Env, s: State)
    requires env.WellFormed() && Reachable(env, s)
    ensures Moving(s.ver) ==> Moved(env, s.db.blocks, s.ver.b, s.ver.nb, s.ver.n)
    ensures s.ver.RUpload? ==> Moved(env, s.db.blocks, s.ver.b, s.ver.nb, s.ver.b.hi + 1)
  {
    ReachableHolds(env, s);
  }

  /** Each step away from an unbroken frontier keeps it, exactly unless it ends a re-upload with a Verified slot of the range
      above a moved one. */
  lemma {:induction false} FrontierBreaksExactly(env: Env, s: State, a: Action, t: State)
    requires env.WellFormed() && Reachable(env, s) && !s.torn && Next(env, s, a) == Some(t) && !Moving(t.ver)
    ensures Frontier(t.db.blocks) <==>
      !(Moving(s.ver) && Broken(env, t.db.blocks, s.ver.b, if t.ver.RUpload? then s.ver.b.hi + 1 else s.ver.n))
  {
    hide Broken, Next, Frontier;
    OneMoreStep(env, s, a, t);
    MovedWhileMoving(env, s);
    MovedWhileMoving(env, t);
    if a == Stop || a == Crash {
      StopTears(env, s, a, t);
      if t.torn {
        BrokenIsBroken(env, s.db.blocks, s.ver.b, s.ver.nb, s.ver.n);
      } else {
        VerificationFrontier(env, t);
      }
    } else if Moving(s.ver) && OfVerifier(a) {
      EndsTheLoop(env, s, a, t);
      if t.torn {
        BrokenIsBroken(env, t.db.blocks, s.ver.b, s.ver.nb, s.ver.b.hi + 1);
      } else {
        VerificationFrontier(env, t);
      }
    } else {
      OthersDoNotTear(env, s, a, t);
      if !OfVerifier(a) {
        StillMoving(env, s, a, t);
      }
      VerificationFrontier(env, t);
    }
  }

  lemma {:induction false} StillMoving(env: Env, s: State, a: Action, t: State)
    requires env.WellFormed() && Reachable(env, s) && Next(env, s, a) == Some(t) && a != Crash && !OfVerifier(a)
    ensures Moving(s.ver) ==> Moving(t.ver)
  {
    ReachableHolds(env, s);
    if OfSyncer(a) {
      SyncKeeps(env, s, a, t);
    }
  }

  lemma {:induction false} EndsTheLoop(env: Env, s: State, a: Action, t: State)
    requires env.WellFormed() && Reachable(env, s) && Moving(s.ver) && OfVerifier(a) && a != Stop
    requires Next(env, s, a) == Some(t) && !Moving(t.ver)
    ensures t.ver == RUpload(s.ver.v, s.ver.b, s.ver.nb) && s.ver.n == s.ver.b.hi && t.torn == TornBySlot(env, s, t.db.blocks)
  {
    hide Next, ReuploadNext, TornBySlot;
    assert s.ver.b.Covers(s.ver.n) by { ReachableHolds(env, s); }
    ReuploadActs(env, s, a, t);
    SlotTears(env, s, a, t);
  }

  /** Slot m is the first of the range with a block on the chain, so the first one a re-upload moves. */
  ghost predicate FirstMoved(env: Env, b: BundleId, m: nat) {
    b.lo <= m && !env.forked(m) && forall y: nat :: b.lo <= y < m ==> env.forked(y)
  }

  lemma {:induction false} BrokenAboveFirst(env: Env, blocks: BlockTable, b: BundleId, n: nat, m: nat)
    requires FirstMoved(env, b, m)
    ensures Broken(env, blocks, b, n) <==>
      m < n && !forall x :: x in blocks && m < x <= b.hi ==> !blocks[x].status.Verified?
  {
    if x :| x in blocks && m < x <= b.hi && blocks[x].status.Verified? {
      if m < n {
        assert Overtaken(env, blocks, b, n, m, x);
      }
    }
  }

  /** Giving up a re-upload, by an error or a crash, breaks the frontier exactly if the first slot to be moved has been moved and
      a slot of the range above it is Verified. */
  lemma {:induction false} HalfDoneBreaksFrontier(env: Env, s: State, a: Action, t: State, m: nat)
    requires env.WellFormed() && Reachable(env, s) && !s.torn && Moving(s.ver) && FirstMoved(env, s.ver.b, m)
    requires (a == Stop || a == Crash) && Next(env, s, a) == Some(t)
    ensures Frontier(t.db.blocks) <==>
      (m < s.ver.n ==> forall x :: x in s.db.blocks && m < x <= s.ver.b.hi ==> !s.db.blocks[x].status.Verified?)
  {
    hide Broken, Next, Frontier;
    StopTears(env, s, a, t);
    FrontierBreaksExactly(env, s, a, t);
    BrokenAboveFirst(env, s.db.blocks, s.ver.b, s.ver.n, m);
  }

  /** Completing one breaks the frontier exactly if a slot of the range without beacon block, above the first moved slot, is
      Verified: those are passed over. */
  lemma {:induction false} CompletedBreaksFrontier(env: Env, s: State, a: Action, t: State, m: nat)
    requires env.WellFormed() && Reachable(env, s) && !s.torn && Moving(s.ver) && FirstMoved(env, s.ver.b, m)
    requires Next(env, s, a) == Some(t) && t.ver.RUpload? && m <= s.ver.b.hi
    ensures Frontier(t.db.blocks) <==>
      forall x :: x in t.db.blocks && m < x <= s.ver.b.hi && env.forked(x) ==> !t.db.blocks[x].status.Verified?
  {
    hide Broken, Next, Frontier;
    FrontierBreaksExactly(env, s, a, t);
    OneMoreStep(env, s, a, t);
    SameRange(env, s, a, t);
    MovedWhileMoving(env, t);
    BrokenAboveFirst(env, t.db.blocks, s.ver.b, s.ver.b.hi + 1, m);
  }

  lemma {:induction false} SameRange(env: Env, s: State, a: Action, t: State)
    requires env.WellFormed() && Reachable(env, s) && Moving(s.ver) && Next(env, s, a) == Some(t) && t.ver.RUpload?
    ensures t.ver.b == s.ver.b
  {
    if OfVerifier(a) && a != Stop {
      EndsTheLoop(env, s, a, t);
    } else if a == Stop || a == Crash {
      StopTears(env, s, a, t);
    } else {
      StillMoving(env, s, a, t);
    }
  }

  lemma {:induction false} FewerUnverified(before: BlockTable, after: BlockTable, v: nat)
    requires v in before && before[v].status.Processed?
    requires forall n :: n in after ==> n in before && (after[n].status.Processed? ==> before[n].status.Processed?)
    requires v in after && !after[v].status.Processed?
    ensures |Unverified(after)| < |Unverified(before)|
  {
    assert Unverified(after) <= Unverified(before) - {v};
    SubsetIsSmaller(Unverified(after), Unverified(before) - {v});
  }

  lemma {:induction false} SubsetIsSmaller(a: set<nat>, b: set<nat>)
    requires a <= b
    ensures |a| <= |b|
    decreases |a|
  {
    if a != {} {
      var x :| x in a;
      SubsetIsSmaller(a - {x}, b - {x});
    }
  }

  lemma {:induction false} MarkMeans(env: Env, s: State, a: Action, t: State)
    requires (a.MarkRange? || a.MarkOne?) && Next(env, s, a) == Some(t)
    ensures s.ver.VMarkRange? || s.ver.VMarkOne?
    ensures t.db.blocks == if a.MarkRange? then UpdateBlocksStatus(s.db, s.ver.b.lo, s.ver.b.hi, Verified).blocks
                           else UpdateBlockStatus(s.db, s.ver.v, Verified).blocks
  {
  }

  lemma {:induction false} PickedIsProcessed(env: Env, s: State)
    requires env.WellFormed() && Reachable(env, s) && (s.ver.VMarkRange? || s.ver.VMarkOne?)
    ensures s.ver.v in s.db.blocks && s.db.blocks[s.ver.v].status.Processed? && s.ver.b.Covers(s.ver.v)
  {
    ReachableHolds(env, s);
  }

  /** Each step that marks blocks strictly lowers the number of Processed blocks. */
  lemma {:induction false} MarkingMakesProgress(env: Env, s: State, a: Action, t: State)
    requires env.WellFormed() && Reachable(env, s) && (a.MarkRange? || a.MarkOne?) && Next(env, s, a) == Some(t)
    ensures |Unverified(t.db.blocks)| < |Unverified(s.db.blocks)|
  {
    MarkMeans(env, s, a, t);
    PickedIsProcessed(env, s);
    FewerUnverified(s.db.blocks, t.db.blocks, s.ver.v);
  }

  /******* Re-uploads *******/

  /** A completed re-upload moved every slot of the range that has a block on the chain: it names the new bundle, is Processed
      and keeps its id. Nothing else changed since the re-upload began, no blob row at all, but for slots saved since. */
  lemma {:induction false} ReuploadMovesRange(env: Env, s: State, t: State)
    requires env.WellFormed() && Reachable(env, s) && s.ver.RMark? && Next(env, s, Mark(Verifier)) == Some(t)
    ensures var b, nb := s.ver.b, s.ver.nb;
      && nb.lo == b.lo && nb.hi == b.hi && nb in t.db.bundles && t.db.bundles[nb].status.Finalized?
      && (forall n: nat :: b.Covers(n) && !env.forked(n) ==>
            n in t.db.blocks && t.db.blocks[n].bundle == nb && t.db.blocks[n].status.Processed?)
      && (forall n :: n in s.before.blocks ==> n in t.db.blocks && t.db.blocks[n].id == s.before.blocks[n].id)
      && (forall n :: n in s.before.blocks && (!b.Covers(n) || env.forked(n)) ==> t.db.blocks[n] == s.before.blocks[n])
      && (forall k :: k in s.before.blobs ==> k in t.db.blobs && t.db.blobs[k] == s.before.blobs[k])
  {
    ReachableHolds(env, s);
  }

  /** A stored blob row never changes again, id included, and new rows belong to slots saved later. */
  lemma {:induction false} BlobRowsNeverChange(env: Env, s: State, a: Action, t: State)
    requires env.WellFormed() && Reachable(env, s) && Next(env, s, a) == Some(t)
    ensures BlobsGrow(s.db.blobs, t.db.blobs, s.next)
  {
    hide Next, Inv;
    ReachableHolds(env, s);
    if OfProcess(a) {
      RestartKeepsTables(env, s, a, t);
    } else if OfSyncer(a) {
      SyncerActs(env, s, a, t);
      SyncKeeps(env, s, a, t);
    } else {
      ActsWhileUp(env, s, a, t);
      VerifyKeeps(env, s, a, t);
    }
  }

  /** Slot n named bundle b when the re-upload began, or was saved under it since. */
  ghost predicate NamedBefore(s: State, n: nat, b: BundleId) {
    if n in s.before.blocks then s.before.blocks[n].bundle == b else n in s.db.blocks && s.db.blocks[n].bundle == b
  }

  /** After a completed re-upload a block still names the replaced bundle exactly if it is of a slot of the range without beacon
      block that named it before or was saved under it since, or if the new name is the old one. On BSC, with a new name, none
      does. */
  lemma {:induction false} NoBlockNamesReplaced(env: Env, s: State, t: State, n: nat)
    requires env.WellFormed() && Reachable(env, s) && s.ver.RMark? && Next(env, s, Mark(Verifier)) == Some(t)
    ensures n in t.db.blocks && t.db.blocks[n].bundle == s.ver.b <==>
      s.ver.b.Covers(n) && if env.forked(n) then NamedBefore(s, n, s.ver.b) else s.ver.nb == s.ver.b
    ensures !env.eth && s.ver.nb != s.ver.b ==> !(n in t.db.blocks && t.db.blocks[n].bundle == s.ver.b)
  {
    ReuploadMovesRange(env, s, t);
    OneMoreStep(env, s, Mark(Verifier), t);
    MarkKeepsBlocks(env, s, t);
    if n in t.db.blocks {
      NamesCoverSlots(env, t, n);
    }
  }

  lemma {:induction false} MarkKeepsBlocks(env: Env, s: State, t: State)
    requires s.ver.RMark? && Next(env, s, Mark(Verifier)) == Some(t)
    ensures t.db.blocks == s.db.blocks
  {
  }

  /******* Bundles *******/

  predicate Overlaps(b: BundleId, c: BundleId) {
    b.lo <= c.hi && c.lo <= b.hi
  }

  /** A restart without pending bundle starts one that overlaps a recorded bundle exactly if that one ends at the next slot, which
      was not saved when it was marked. */
  lemma {:induction false} RestartOverlapsExactly(env: Env, s: State, interval: nat, detailed: bool, t: State, c: BundleId)
    requires env.WellFormed() && Reachable(env, s) && Next(env, s, Restart(interval, detailed)) == Some(t)
    requires (forall b :: !IsPending(s.db.bundles, b)) && c in s.db.bundles
    ensures Overlaps(t.detail, c) <==> c.hi == NextBlockNumOrSlot(s.db.blocks, env.start)
  {
    ReachableHolds(env, s);
    SyncSteps.NextIsComputed(env, s.next, s.db.blocks);
    ResumesInside(env, s.next, s.db, interval);
    assert BundleFits(env, s.next, c, s.db.bundles[c]);
    assert !IsPending(s.db.bundles, c);
  }

  /** The slot is the end of one of them and the start of the other. */
  predicate Joint(b: BundleId, c: BundleId, n: nat) {
    (n == b.hi && n == c.lo) || (n == c.hi && n == b.lo)
  }

  /** Over all runs two recorded bundles have the same range, which takes a calibrated one, or share at most one slot, the end of
      the one and the start of the other. */
  lemma {:induction false} BundlesShareEndsOnly(env: Env, s: State, b: BundleId, c: BundleId, n: nat)
    requires env.WellFormed() && Reachable(env, s) && b in s.db.bundles && c in s.db.bundles && b != c
    requires b.Covers(n) && c.Covers(n)
    ensures OneRange(b, c) || Joint(b, c, n)
    ensures b.Plain() && c.Plain() ==> Joint(b, c, n)
  {
    ReachableHolds(env, s);
  }

  /** A Sealed uncalibrated bundle goes back to Finalized exactly by the sync thread marking it again at its own end slot, which
      is not saved yet; once the end slot is saved it stays. */
  lemma {:induction false} UnsealedExactly(env: Env, s: State, a: Action, t: State, b: BundleId)
    requires env.WellFormed() && Reachable(env, s) && Next(env, s, a) == Some(t)
    requires b in s.db.bundles && b.Plain() && s.db.bundles[b].status.Sealed?
    ensures b in t.db.bundles
    ensures t.db.bundles[b].status.Finalized? <==> a == Mark(Syncer) && s.sync == SMark(b.hi) && s.detail == b
    ensures t.db.bundles[b].status.Finalized? ==> b.hi !in s.db.blocks && b.hi == NextBlockNumOrSlot(s.db.blocks, env.start)
  {
    hide Inv, Next;
    ReachableHolds(env, s);
    if OfProcess(a) {
      RestartKeepsTables(env, s, a, t);
    } else if OfSyncer(a) {
      SyncerUnseals(env, s, a, t, b);
    } else {
      VerifierDoesNotUnseal(env, s, a, t, b);
    }
  }

  lemma {:induction false} SyncerUnseals(env: Env, s: State, a: Action, t: State, b: BundleId)
    requires env.WellFormed() && Inv(env, s) && OfSyncer(a) && Next(env, s, a) == Some(t)
    requires b in s.db.bundles && s.db.bundles[b].status.Sealed?
    ensures b in t.db.bundles
    ensures t.db.bundles[b].status.Finalized? <==> a == Mark(Syncer) && s.sync == SMark(b.hi) && s.detail == b
    ensures t.db.bundles[b].status.Finalized? ==> b.hi !in s.db.blocks && b.hi == NextBlockNumOrSlot(s.db.blocks, env.start)
  {
    hide Inv, Next, SyncNext;
    SyncerActs(env, s, a, t);
    BundleSteps.SyncerTable(env, s, a, t);
    if a.Mark? {
      MarksAtEnd(env, s);
    }
  }

  lemma {:induction false} VerifierDoesNotUnseal(env: Env, s: State, a: Action, t: State, b: BundleId)
    requires Inv(env, s) && OfVerifier(a) && Next(env, s, a) == Some(t)
    requires b in s.db.bundles && b.Plain() && s.db.bundles[b].status.Sealed?
    ensures b in t.db.bundles && !t.db.bundles[b].status.Finalized?
  {
    hide Inv, Next;
    ActsWhileUp(env, s, a, t);
    BundleSteps.VerifierTable(env, s, a, t);
    BundleSteps.OwnBundles(env, s);
  }

  lemma {:induction false} MarksAtEnd(env: Env, s: State)
    requires env.WellFormed() && Inv(env, s) && s.sync.SMark?
    ensures s.sync == SMark(s.detail.hi) && s.detail.hi !in s.db.blocks
    ensures s.detail.hi == NextBlockNumOrSlot(s.db.blocks, env.start)
  {
    SyncSteps.NextIsComputed(env, s.next, s.db.blocks);
  }

  lemma {:induction false} RestartKeepsTables(env: Env, s: State, a: Action, t: State)
    requires env.WellFormed() && Inv(env, s) && OfProcess(a) && Next(env, s, a) == Some(t)
    ensures t.db == s.db
  {
    if a.Restart? {
      RestartStep(env, s, a.interval, a.detailed, t);
    }
  }

  /** The evidence for a Verified block is about the bundle it names if the block was checked on its own, or if no other recorded
      bundle covers the slot. Else that bundle may also be one that shares the slot as its end, or one of the same range. */
  lemma {:induction false} EvidenceNamesBundle(env: Env, s: State, n: nat)
    requires env.WellFormed() && Reachable(env, s) && n in s.db.blocks && s.db.blocks[n].status.Verified?
    ensures n in s.evidence
    ensures var b, c := s.db.blocks[n].bundle, s.evidence[n].b;
      && b in s.db.bundles && c in s.db.bundles && b.Covers(n) && c.Covers(n)
      && (OneByOne(s.evidence[n]) ==> c == b)
      && (c == b || OneRange(b, c) || Joint(b, c, n))
    ensures (forall c :: c in s.db.bundles && c.Covers(n) ==> c == s.db.blocks[n].bundle) ==>
      s.evidence[n].b == s.db.blocks[n].bundle
  {
    ReachableHolds(env, s);
    assert Named(s.db, s.evidence);
    assert NamedBy(s.db, s.evidence[n], n);
  }
}
