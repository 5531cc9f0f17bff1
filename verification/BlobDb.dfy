/** The data access object of db/dao.go: queries and transactions over the three tables. */
module BlobDb {
  import opened Types
  import opened Dao

  datatype DbError = NotFound | Failed

  datatype Result<+T> = Ok(value: T) | Err(error: DbError)

  /** What a query into an empty struct leaves behind when no row matches; the empty bundle name stands as [0, 0]. */
  const ZERO_BLOCK := BlockRow(0, 0, NO_HEADER, 0, BundleId(0, 0, None), Processed)

  /** The three tables behind one connection. Any call may fail; a failed write leaves the tables as they were. */
  class BlobSvcDB {
    var db: Tables

    constructor ()
      ensures Valid() && db == EMPTY
    {
      db := EMPTY;
    }

    ghost predicate Valid()
      reads this
    {
      Keyed(db)
    }

    method GetBlock(slot: nat) returns (r: Result<BlockRow>)
      ensures r.Ok? ==> slot in db.blocks && r.value == db.blocks[slot]
      ensures r == Err(NotFound) ==> slot !in db.blocks
    {
      if * {
        return Err(Failed);
      }
      return if slot in db.blocks then Ok(db.blocks[slot]) else Err(NotFound);
    }

    method GetBlockByRoot(root: string) returns (r: Result<BlockRow>)
      requires Valid()
      ensures r.Ok? ==>
        || (r.value.slot in db.blocks && r.value == db.blocks[r.value.slot] && r.value.header.root == root)
        || (r.value == ZERO_BLOCK && forall n :: n in db.blocks ==> db.blocks[n].header.root != root)
      ensures r.Err? ==> r.error.Failed?
    {
      if * {
        return Err(Failed);
      }
      if n: nat :| n in db.blocks && db.blocks[n].header.root == root {
        return Ok(db.blocks[n]);
      }
      return Ok(ZERO_BLOCK);
    }

    method GetLatestProcessedBlock() returns (r: Result<BlockRow>)
      requires Valid()
      ensures r.Ok? && db.blocks == map[] ==> r.value == ZERO_BLOCK
      ensures r.Ok? && db.blocks != map[] ==>
        && r.value.slot in db.blocks && r.value == db.blocks[r.value.slot]
        && forall n :: n in db.blocks ==> n <= r.value.slot
      ensures r.Ok? ==> r.value.slot == LatestSlot(db.blocks)
      ensures r.Err? ==> r.error.Failed?
    {
      if * {
        return Err(Failed);
      }
      return Ok(if db.blocks == map[] then ZERO_BLOCK else db.blocks[LatestSlot(db.blocks)]);
    }

    method GetEarliestUnverifiedBlock() returns (r: Result<BlockRow>)
      requires Valid()
      ensures r.Ok? ==> IsEarliestUnverified(db.blocks, r.value.slot) && r.value == db.blocks[r.value.slot]
      ensures r == Err(NotFound) ==> forall n :: n in db.blocks ==> !db.blocks[n].status.Processed?
    {
      if * {
        return Err(Failed);
      }
      var open := Unverified(db.blocks);
      if open == {} {
        assert forall n :: n in db.blocks ==> n !in open;
        return Err(NotFound);
      }
      MinExists(open);
      var n: nat :| n in open && forall m :: m in open ==> n <= m;
      assert forall m :: m in db.blocks && db.blocks[m].status.Processed? ==> m in open;
      return Ok(db.blocks[n]);
    }

    method UpdateBlockStatus(slot: nat, status: BlockStatus) returns (ok: bool)
      requires Valid()
      modifies this
      ensures Valid() && db == if ok then Dao.UpdateBlockStatus(old(db), slot, status) else old(db)
    {
      ok := UpdateBlocksStatus(slot, slot, status);
    }

    method UpdateBlocksStatus(startSlot: nat, endSlot: nat, status: BlockStatus) returns (ok: bool)
      requires Valid()
      modifies this
      ensures Valid() && db == if ok then Dao.UpdateBlocksStatus(old(db), startSlot, endSlot, status) else old(db)
      ensures db == old(db).(blocks := db.blocks) && forall n :: n in db.blocks <==> n in old(db).blocks
      ensures forall n :: n in db.blocks ==> db.blocks[n] == old(db).blocks[n].(status := db.blocks[n].status)
      ensures ok && !status.Processed? ==>
        forall n :: n in db.blocks && startSlot <= n <= endSlot ==> db.blocks[n].status == status
      ensures forall n :: n in db.blocks && (!ok || status.Processed? || !(startSlot <= n <= endSlot)) ==>
        db.blocks[n].status == old(db).blocks[n].status
    {
      ok := *;
      if ok {
        db := Dao.UpdateBlocksStatus(db, startSlot, endSlot, status);
      }
    }

    method GetBlobByBlockID(slot: nat) returns (r: Result<seq<BlobRow>>)
      ensures r.Ok? ==> r.value == RowsAt(db.blobs, slot)
      ensures r.Ok? && Valid() ==> ListsExactly(db.blobs, KeysAt(db.blobs, slot), r.value)
    {
      if * {
        return Err(Failed);
      }
      if Valid() {
        RowsOfMeans(db.blobs, KeysAt(db.blobs, slot), slot);
      }
      return Ok(RowsAt(db.blobs, slot));
    }

    /** The rows of the slot with a listed index: each of them once, ascending, and no others. */
    method GetBlobByBlockIDAndIndices(slot: nat, indices: seq<int>) returns (r: Result<seq<BlobRow>>)
      ensures r.Ok? ==> r.value == RowsAtIndices(db.blobs, slot, indices)
      ensures r.Ok? && Valid() ==> ListsExactly(db.blobs, KeysAtIndices(db.blobs, slot, indices), r.value)
    {
      if * {
        return Err(Failed);
      }
      if Valid() {
        RowsOfMeans(db.blobs, KeysAtIndices(db.blobs, slot, indices), slot);
      }
      return Ok(RowsAtIndices(db.blobs, slot, indices));
    }

    /** Only which rows there are matters to the one caller, so the order is left out. */
    method GetBlobBetweenBlocks(startSlot: nat, endSlot: nat) returns (r: Result<set<BlobKey>>)
      ensures r.Ok? ==> r.value == KeysBetween(db.blobs, startSlot, endSlot)
      ensures r.Ok? ==> forall k :: k in r.value <==> k in db.blobs && startSlot <= k.slot <= endSlot
    {
      if * {
        return Err(Failed);
      }
      return Ok(KeysBetween(db.blobs, startSlot, endSlot));
    }

    method GetBundle(name: BundleId) returns (r: Result<BundleRow>)
      ensures r.Ok? ==> name in db.bundles && r.value == db.bundles[name]
      ensures r == Err(NotFound) ==> name !in db.bundles
    {
      if * {
        return Err(Failed);
      }
      return if name in db.bundles then Ok(db.bundles[name]) else Err(NotFound);
    }

    /** The name of the uncalibrated Finalizing bundle with the highest id. */
    method GetLatestFinalizingBundle() returns (r: Result<BundleId>)
      ensures r.Ok? ==> IsLatestPending(db.bundles, r.value)
      ensures r == Err(NotFound) ==> forall b :: !IsPending(db.bundles, b)
    {
      if * {
        return Err(Failed);
      }
      var pending := set b | b in db.bundles && IsPending(db.bundles, b);
      if pending == {} {
        assert forall b :: IsPending(db.bundles, b) ==> b in pending;
        return Err(NotFound);
      }
      LatestExists(db.bundles, pending);
      ghost var top :| Outranks(db.bundles, pending, top);
      var b :| b in pending && forall c :: c in pending ==> db.bundles[c].id <= db.bundles[b].id;
      assert forall c :: IsPending(db.bundles, c) ==> c in pending;
      return Ok(b);
    }

    /** A name that exists keeps its row; a new one gets a row that is Finalizing and the latest of all. */
    method CreateBundle(name: BundleId, calibrated: bool, created: int) returns (ok: bool)
      requires Valid()
      modifies this
      ensures Valid() && db == if ok then Dao.CreateBundle(old(db), name, calibrated, created) else old(db)
      ensures db.blocks == old(db).blocks && db.blobs == old(db).blobs
      ensures ok ==> name in db.bundles
      ensures !ok || name in old(db).bundles ==> db == old(db)
      ensures forall b :: b in old(db).bundles ==> b in db.bundles && db.bundles[b] == old(db).bundles[b]
      ensures ok && name !in old(db).bundles ==>
        && db.bundles[name] == BundleRow(db.bundles[name].id, Finalizing, calibrated, created)
        && forall b :: b in db.bundles && b != name ==> b in old(db).bundles && db.bundles[b].id < db.bundles[name].id
    {
      ok := *;
      if ok {
        db := Dao.CreateBundle(db, name, calibrated, created);
      }
    }

    method UpdateBundleStatus(name: BundleId, status: BundleStatus) returns (ok: bool)
      requires Valid()
      modifies this
      ensures Valid() && db == if ok then Dao.UpdateBundleStatus(old(db), name, status) else old(db)
      ensures db == old(db).(bundles := db.bundles) && forall b :: b in db.bundles <==> b in old(db).bundles
      ensures forall b :: b in db.bundles ==> db.bundles[b] == old(db).bundles[b].(status := db.bundles[b].status)
      ensures ok && !status.Finalizing? && name in db.bundles ==> db.bundles[name].status == status
      ensures forall b :: b in db.bundles && (!ok || status.Finalizing? || b != name) ==>
        db.bundles[b].status == old(db).bundles[b].status
    {
      ok := *;
      if ok {
        db := Dao.UpdateBundleStatus(db, name, status);
      }
    }

    /** A block and blob rows that are new, or carry the ids stored under their slot and names, are all stored, known ones keeping
        their ids, and nothing else changes. */
    method SaveBlockAndBlob(block: BlockRow, blobs: seq<BlobRow>) returns (ok: bool)
      requires Valid()
      modifies this
      ensures Valid() && db == if ok then Dao.SaveBlockAndBlob(old(db), block, blobs) else old(db)
      ensures ok && Fits(old(db), block, blobs) ==>
        && block.slot in db.blocks && db.blocks[block.slot].(id := 0) == block.(id := 0)
        && (block.slot in old(db).blocks ==> db.blocks[block.slot].id == old(db).blocks[block.slot].id)
        && (forall n :: n in db.blocks && n != block.slot ==> n in old(db).blocks)
        && (forall n :: n in old(db).blocks ==> n in db.blocks && (n != block.slot ==> db.blocks[n] == old(db).blocks[n]))
        && Stored(old(db).blobs, blobs, db.blobs)
        && BlockIds(db.blocks, db.blockSeq) && BlobIds(db.blobs, db.blobSeq) && db.bundles == old(db).bundles
    {
      ok := *;
      if Fits(db, block, blobs) {
        SaveBlockFits(db, block);
        UpsertBlobsFits(db.blobs, db.blobSeq, blobs);
      }
      if ok {
        SaveKeyed(db, block, blobs);
        db := Dao.SaveBlockAndBlob(db, block, blobs);
      }
    }
  }
}
