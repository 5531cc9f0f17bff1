/** The three tables of the database and the operations on them. */
module Dao {
  import opened Types

  datatype BlockStatus = Processed | Verified | Skipped

  datatype BundleStatus = Finalizing | Finalized | Sealed | Deprecated

  datatype BlockRow = BlockRow(id: nat, slot: nat, header: Header, blobCount: nat, bundle: BundleId, status: BlockStatus)

  datatype BlobRow = BlobRow(
    id: nat, key: BlobKey, txHash: string, toAddr: string, versionedHash: string, txIndex: int,
    kzgCommitment: string, kzgProof: string, inclusionProof: string)

  datatype BundleRow = BundleRow(id: nat, status: BundleStatus, calibrated: bool, created: int)

  type BlockTable = map<nat, BlockRow>
  type BlobTable = map<BlobKey, BlobRow>
  type BundleTable = map<BundleId, BundleRow>

  /** Each table is indexed by its unique column; the counters give the next automatic id. */
  datatype Tables = Tables(
    blocks: BlockTable, blobs: BlobTable, bundles: BundleTable,
    blockSeq: nat, blobSeq: nat, bundleSeq: nat)

  const EMPTY := Tables(map[], map[], map[], 1, 1, 1)

  /******* Queries *******/

  lemma {:induction false} Greatest(s: set<nat>) returns (m: nat)
    requires s != {}
    ensures m in s && forall x :: x in s ==> x <= m
    decreases |s|
  {
    m :| m in s;
    var rest := s - {m};
    assert forall x :: x in s ==> x == m || x in rest;
    if rest != {} {
      var other := Greatest(rest);
      m := if m < other then other else m;
    }
  }

  lemma {:induction false} Least(s: set<nat>) returns (m: nat)
    requires s != {}
    ensures m in s && forall x :: x in s ==> m <= x
    decreases |s|
  {
    m :| m in s;
    var rest := s - {m};
    assert forall x :: x in s ==> x == m || x in rest;
    if rest != {} {
      var other := Least(rest);
      m := if other < m then other else m;
    }
  }

  lemma {:induction false} MaxExists(s: set<nat>)
    requires s != {}
    ensures exists m :: m in s && forall x :: x in s ==> x <= m
  {
    var m := Greatest(s);
  }

  lemma {:induction false} MinExists(s: set<nat>)
    requires s != {}
    ensures exists m :: m in s && forall x :: x in s ==> m <= x
  {
    var m := Least(s);
  }

  /** Slot of the latest row; a missing row reads as the zero value. */
  function LatestSlot(blocks: BlockTable): (slot: nat)
    ensures blocks == map[] ==> slot == 0
    ensures blocks != map[] ==> slot in blocks && forall n :: n in blocks ==> n <= slot
  {
    if blocks == map[] then 0 else
      assert blocks.Keys != {};
      MaxExists(blocks.Keys);
      var m: nat :| m in blocks.Keys && forall x :: x in blocks.Keys ==> x <= m;
      m
  }

  predicate IsPending(bundles: BundleTable, b: BundleId) {
    b in bundles && bundles[b].status.Finalizing? && !bundles[b].calibrated
  }

  ghost predicate IsLatestPending(bundles: BundleTable, b: BundleId) {
    IsPending(bundles, b) && forall c :: IsPending(bundles, c) ==> bundles[c].id <= bundles[b].id
  }

  function Unverified(blocks: BlockTable): set<nat> {
    set n | n in blocks && blocks[n].status.Processed?
  }

  ghost predicate IsEarliestUnverified(blocks: BlockTable, v: nat) {
    v in blocks && blocks[v].status.Processed? && forall n :: n in blocks && n < v ==> !blocks[n].status.Processed?
  }

  function KeysBetween(blobs: BlobTable, lo: nat, hi: nat): set<BlobKey> {
    set k | k in blobs && lo <= k.slot <= hi
  }

  function KeysAt(blobs: BlobTable, slot: nat): set<BlobKey> {
    set k | k in blobs && k.slot == slot
  }

  /** The keys of one slot in ascending index order. */
  ghost predicate Ascends(order: seq<BlobKey>) {
    forall i, j :: 0 <= i < j < |order| ==> order[i].idx < order[j].idx
  }

  ghost predicate OneSlot(keys: set<BlobKey>, slot: nat) {
    forall k :: k in keys ==> k.slot == slot
  }

  lemma {:induction false} LeastKeyExists(keys: set<BlobKey>, slot: nat)
    requires keys != {} && OneSlot(keys, slot)
    ensures exists m :: m in keys && forall k :: k in keys ==> m.idx <= k.idx
    decreases |keys|
  {
    var y :| y in keys;
    var rest := keys - {y};
    assert forall k :: k in keys ==> k == y || k in rest;
    if rest != {} {
      LeastKeyExists(rest, slot);
      var m :| m in rest && forall k :: k in rest ==> m.idx <= k.idx;
      var low := if m.idx < y.idx then m else y;
      assert low in keys && forall k :: k in keys ==> low.idx <= k.idx;
    }
  }

  function InOrder(keys: set<BlobKey>, slot: nat): (order: seq<BlobKey>)
    requires OneSlot(keys, slot)
    ensures Ascends(order)
    ensures forall k :: k in order <==> k in keys
    decreases |keys|
  {
    if keys == {} then [] else
      LeastKeyExists(keys, slot);
      var m :| m in keys && forall k :: k in keys ==> m.idx <= k.idx;
      var rest := InOrder(keys - {m}, slot);
      assert forall k :: k in rest ==> k in keys && k != m && k.slot == m.slot && m.idx <= k.idx;
      assert forall i :: 0 <= i < |rest| ==> rest[i] in rest;
      [m] + rest
  }

  /** Keys of one slot are listed in order in one way only. */
  lemma {:induction false} AscendingIsUnique(a: seq<BlobKey>, b: seq<BlobKey>, slot: nat)
    requires Ascends(a) && Ascends(b)
    requires forall k :: k in a ==> k.slot == slot
    requires forall k :: k in a <==> k in b
    ensures a == b
    decreases |a|
  {
    if a == [] {
      assert forall i :: 0 <= i < |b| ==> b[i] in b;
    } else {
      assert a[0] in b && b != [];
      assert b[0] in a;
      assert a[0].idx <= b[0].idx <= a[0].idx;
      assert a[0] == b[0];
      SameTail(a, b);
      AscendingIsUnique(a[1..], b[1..], slot);
    }
  }

  lemma {:induction false} SameTail(a: seq<BlobKey>, b: seq<BlobKey>)
    requires Ascends(a) && Ascends(b) && a != [] && b != [] && a[0] == b[0]
    requires forall k :: k in a <==> k in b
    ensures forall k :: k in a[1..] <==> k in b[1..]
  {
    InTail(a);
    InTail(b);
  }

  lemma {:induction false} InTail(a: seq<BlobKey>)
    requires Ascends(a) && a != []
    ensures forall k :: k in a[1..] <==> k in a && k != a[0]
  {
    forall k | k in a && k != a[0] ensures k in a[1..] {
      var i :| 0 <= i < |a| && a[i] == k;
      assert a[1..][i - 1] == k;
    }
  }

  /** The rows under these keys, ascending by index. */
  function RowsOf(blobs: BlobTable, keys: set<BlobKey>, slot: nat): (rows: seq<BlobRow>)
    requires OneSlot(keys, slot) && keys <= blobs.Keys
  {
    var order := InOrder(keys, slot);
    seq(|order|, i requires 0 <= i < |order| =>
      assert order[i] in order;
      blobs[order[i]])
  }

  predicate Among(rows: seq<BlobRow>, k: BlobKey) {
    exists i :: 0 <= i < |rows| && rows[i].key == k
  }

  /** Every row under one of these keys once, ascending by index, and no other row. */
  ghost predicate ListsExactly(blobs: BlobTable, keys: set<BlobKey>, rows: seq<BlobRow>) {
    && (forall i :: 0 <= i < |rows| ==> rows[i].key in keys && rows[i].key in blobs && rows[i] == blobs[rows[i].key])
    && (forall i, j :: 0 <= i < j < |rows| ==> rows[i].key.idx < rows[j].key.idx)
    && (forall k :: k in keys ==> Among(rows, k))
  }

  lemma {:induction false} RowsOfMeans(blobs: BlobTable, keys: set<BlobKey>, slot: nat)
    requires OneSlot(keys, slot) && keys <= blobs.Keys && KeyedBlobs(blobs)
    ensures ListsExactly(blobs, keys, RowsOf(blobs, keys, slot))
  {
    var rows, order := RowsOf(blobs, keys, slot), InOrder(keys, slot);
    forall i | 0 <= i < |rows| ensures order[i] in keys && rows[i] == blobs[order[i]] && rows[i].key == order[i] {
      assert order[i] in order;
    }
    forall k | k in keys ensures Among(rows, k) {
      assert k in order;
      var i :| 0 <= i < |order| && order[i] == k;
      assert rows[i].key == k;
    }
  }

  /** All rows of a slot, ascending by index. */
  function RowsAt(blobs: BlobTable, slot: nat): seq<BlobRow> {
    RowsOf(blobs, KeysAt(blobs, slot), slot)
  }

  predicate Mentions(indices: seq<int>, i: int) {
    exists j :: 0 <= j < |indices| && indices[j] == i
  }

  function KeysAtIndices(blobs: BlobTable, slot: nat, indices: seq<int>): set<BlobKey> {
    set k | k in blobs && k.slot == slot && Mentions(indices, k.idx)
  }

  /** The rows of a slot whose index is listed, ascending by index and each once. */
  function RowsAtIndices(blobs: BlobTable, slot: nat, indices: seq<int>): seq<BlobRow> {
    RowsOf(blobs, KeysAtIndices(blobs, slot, indices), slot)
  }

  /** With one row per index 0..n-1 the query returns them in index order. */
  lemma {:induction false} RowsAtDense(blobs: BlobTable, slot: nat, n: nat)
    requires forall k :: k in blobs && k.slot == slot ==> 0 <= k.idx < n
    requires forall i :: 0 <= i < n ==> BlobKey(slot, i) in blobs
    ensures |RowsAt(blobs, slot)| == n
    ensures forall i :: 0 <= i < n ==> RowsAt(blobs, slot)[i] == blobs[BlobKey(slot, i)]
  {
    var order := seq(n, i => BlobKey(slot, i));
    var keys := KeysAt(blobs, slot);
    forall k ensures k in order <==> k in keys {
      if k in keys {
        assert order[k.idx] == k;
      }
    }
    AscendingIsUnique(InOrder(keys, slot), order, slot);
  }

  /******* Updates *******/

  /** An update through a struct skips zero-valued columns, so status Processed (0) is never written this way. */
  function UpdateBlocksStatus(t: Tables, lo: nat, hi: nat, status: BlockStatus): Tables {
    if status.Processed? then t else
      t.(blocks := map n | n in t.blocks ::
        if lo <= n <= hi then t.blocks[n].(status := status) else t.blocks[n])
  }

  function UpdateBlockStatus(t: Tables, slot: nat, status: BlockStatus): Tables {
    UpdateBlocksStatus(t, slot, slot, status)
  }

  function UpdateBundleStatus(t: Tables, name: BundleId, status: BundleStatus): Tables {
    if status.Finalizing? || name !in t.bundles then t else
      t.(bundles := t.bundles[name := t.bundles[name].(status := status)])
  }

  /** Inserting a name that is already present is a duplicate-key error, which is swallowed. */
  function CreateBundle(t: Tables, name: BundleId, calibrated: bool, created: int): Tables {
    if name in t.bundles then t else
      t.(bundles := t.bundles[name := BundleRow(t.bundleSeq, Finalizing, calibrated, created)], bundleSeq := t.bundleSeq + 1)
  }

  function Max(a: nat, b: nat): nat {
    if a < b then b else a
  }

  /** A row without id is inserted; a row with an id overwrites every column of the row that has it. Violating the unique
      slot is a duplicate-key error, which is swallowed. */
  function SaveBlock(t: Tables, row: BlockRow): Tables {
    if row.id == 0 then
      if row.slot in t.blocks then t else
        t.(blocks := t.blocks[row.slot := row.(id := t.blockSeq)], blockSeq := t.blockSeq + 1)
    else
      var others := map n | n in t.blocks && t.blocks[n].id != row.id :: t.blocks[n];
      if row.slot in others then t else
        t.(blocks := others[row.slot := row], blockSeq := Max(t.blockSeq, row.id + 1))
  }

  /** Upsert of one row: a clash on the primary key overwrites the row with that id, a clash on the name overwrites the row
      with that name but keeps its id. None stands for a duplicate-key error. */
  function UpsertBlob(blobs: BlobTable, blobSeq: nat, row: BlobRow): Option<(BlobTable, nat)> {
    if row.id != 0 && exists k :: k in blobs && blobs[k].id == row.id then
      var others := map k | k in blobs && blobs[k].id != row.id :: blobs[k];
      if row.key in others then None else Some((others[row.key := row], blobSeq))
    else if row.key in blobs then
      Some((blobs[row.key := row.(id := blobs[row.key].id)], blobSeq))
    else if row.id != 0 then
      Some((blobs[row.key := row], Max(blobSeq, row.id + 1)))
    else
      Some((blobs[row.key := row.(id := blobSeq)], blobSeq + 1))
  }

  function UpsertBlobs(blobs: BlobTable, blobSeq: nat, rows: seq<BlobRow>): Option<(BlobTable, nat)>
    decreases |rows|
  {
    if rows == [] then Some((blobs, blobSeq)) else
      var last := |rows| - 1;
      match UpsertBlobs(blobs, blobSeq, rows[..last])
      case None => None
      case Some((b, s)) => UpsertBlob(b, s, rows[last])
  }

  /** One transaction: the block row, then the blob rows; a duplicate-key error of either statement undoes that statement only. */
  function SaveBlockAndBlob(t: Tables, block: BlockRow, rows: seq<BlobRow>): Tables {
    var t1 := SaveBlock(t, block);
    match UpsertBlobs(t1.blobs, t1.blobSeq, rows)
    case None => t1
    case Some((b, s)) => t1.(blobs := b, blobSeq := s)
  }

  /******* What saving does when ids and unique columns agree *******/

  ghost predicate BlockIds(blocks: BlockTable, blockSeq: nat) {
    && (forall n :: n in blocks ==> blocks[n].slot == n && 0 < blocks[n].id < blockSeq)
    && (forall m, n :: m in blocks && n in blocks && m != n ==> blocks[m].id != blocks[n].id)
  }

  ghost predicate BlobIds(blobs: BlobTable, blobSeq: nat) {
    && 0 < blobSeq
    && (forall k :: k in blobs ==> blobs[k].key == k && 0 < blobs[k].id < blobSeq)
    && (forall k, l :: k in blobs && l in blobs && k != l ==> blobs[k].id != blobs[l].id)
  }

  /** The row is new, or carries the id already stored under its slot. */
  ghost predicate BlockFits(blocks: BlockTable, row: BlockRow) {
    if row.slot in blocks then row.id == blocks[row.slot].id else row.id == 0
  }

  lemma {:induction false} SaveBlockFits(t: Tables, row: BlockRow)
    requires BlockIds(t.blocks, t.blockSeq) && BlockFits(t.blocks, row) && 0 < t.blockSeq
    ensures var t' := SaveBlock(t, row);
      && t'.blocks == t.blocks[row.slot := row.(id := if row.slot in t.blocks then row.id else t.blockSeq)]
      && t' == t.(blocks := t'.blocks, blockSeq := t'.blockSeq)
      && BlockIds(t'.blocks, t'.blockSeq) && 0 < t'.blockSeq
  {
    if row.slot in t.blocks {
      var others := map n | n in t.blocks && t.blocks[n].id != row.id :: t.blocks[n];
      assert others[row.slot := row] == t.blocks[row.slot := row];
    }
  }

  /** Like BlockFits, but a row whose name is already stored may also come without id. */
  ghost predicate BlobFits(blobs: BlobTable, row: BlobRow) {
    row.id == 0 || (row.key in blobs && row.id == blobs[row.key].id)
  }

  lemma {:induction false} UpsertBlobFits(blobs: BlobTable, blobSeq: nat, row: BlobRow)
    requires BlobIds(blobs, blobSeq) && BlobFits(blobs, row)
    ensures var r := UpsertBlob(blobs, blobSeq, row);
      && r.Some?
      && r.value.0 == blobs[row.key := row.(id := if row.key in blobs then blobs[row.key].id else blobSeq)]
      && blobSeq <= r.value.1 && BlobIds(r.value.0, r.value.1)
  {
    if row.id != 0 {
      assert blobs[row.key].id == row.id;
      var others := map k | k in blobs && blobs[k].id != row.id :: blobs[k];
      assert row.key !in others;
      assert others[row.key := row] == blobs[row.key := row];
    }
  }

  ghost predicate DistinctKeys(rows: seq<BlobRow>) {
    forall i, j :: 0 <= i < j < |rows| ==> rows[i].key != rows[j].key
  }

  /** `after` is `before` with every row stored, known names keeping their ids and all else untouched. */
  ghost predicate Stored(before: BlobTable, rows: seq<BlobRow>, after: BlobTable) {
    && (forall k :: k in after <==> k in before || Among(rows, k))
    && (forall i :: 0 <= i < |rows| ==> rows[i].key in after && after[rows[i].key].(id := 0) == rows[i].(id := 0))
    && (forall k :: k in before ==> k in after && after[k].id == before[k].id)
    && (forall k :: k in before && !Among(rows, k) ==> after[k] == before[k])
  }

  /** Saving rows with distinct names stores each of them. */
  lemma {:induction false} UpsertBlobsFits(blobs: BlobTable, blobSeq: nat, rows: seq<BlobRow>)
    requires BlobIds(blobs, blobSeq) && DistinctKeys(rows)
    requires forall i :: 0 <= i < |rows| ==> BlobFits(blobs, rows[i])
    ensures var r := UpsertBlobs(blobs, blobSeq, rows);
      r.Some? && BlobIds(r.value.0, r.value.1) && Stored(blobs, rows, r.value.0)
    decreases |rows|
  {
    if rows != [] {
      var last := |rows| - 1;
      var front, row := rows[..last], rows[last];
      UpsertBlobsFits(blobs, blobSeq, front);
      var mid := UpsertBlobs(blobs, blobSeq, front).value;
      assert BlobFits(mid.0, row);
      UpsertBlobFits(mid.0, mid.1, row);
      StoredOneMore(blobs, rows, mid.0, UpsertBlob(mid.0, mid.1, row).value.0);
    }
  }

  lemma {:induction false} StoredOneMore(blobs: BlobTable, rows: seq<BlobRow>, mid: BlobTable, after: BlobTable)
    requires rows != [] && DistinctKeys(rows)
    requires var last := |rows| - 1;
      && Stored(blobs, rows[..last], mid)
      && rows[last].key in after
      && after == mid[rows[last].key := after[rows[last].key]]
      && after[rows[last].key].(id := 0) == rows[last].(id := 0)
      && (rows[last].key in mid ==> after[rows[last].key].id == mid[rows[last].key].id)
    ensures Stored(blobs, rows, after)
  {
    var last := |rows| - 1;
    forall k ensures Among(rows, k) <==> Among(rows[..last], k) || k == rows[last].key {
      if Among(rows[..last], k) {
        var i :| 0 <= i < last && rows[..last][i].key == k;
        assert rows[i].key == k;
      }
      if Among(rows, k) && k != rows[last].key {
        var i :| 0 <= i < |rows| && rows[i].key == k;
        assert rows[..last][i].key == k;
      }
    }
    forall i | 0 <= i < |rows| ensures rows[i].key in after && after[rows[i].key].(id := 0) == rows[i].(id := 0) {
      if i < last {
        assert rows[..last][i] == rows[i];
      }
    }
  }

  /******* What saving does when they clash *******/

  /** Row `row` came under its name, the row under `gone` was removed, and all else is as it was. */
  ghost predicate Replaced(before: BlobTable, after: BlobTable, gone: BlobKey, row: BlobRow) {
    && (forall k :: k in after <==> k == row.key || (k in before && k != gone))
    && (forall k :: k in after && k != row.key ==> after[k] == before[k])
    && row.key in after && after[row.key] == row
  }

  /** A row that carries the id stored under another name renames that row, unless its own name is taken, which is an error; a
      name that is known keeps the id it has, whatever unknown id the row carries. */
  lemma {:induction false} UpsertBlobClash(blobs: BlobTable, blobSeq: nat, row: BlobRow)
    requires BlobIds(blobs, blobSeq) && row.id != 0
    ensures var r := UpsertBlob(blobs, blobSeq, row);
      && (forall k :: k in blobs && blobs[k].id == row.id ==>
            if k != row.key && row.key in blobs then r.None?
            else r.Some? && r.value.1 == blobSeq && Replaced(blobs, r.value.0, k, row))
      && ((forall k :: k in blobs ==> blobs[k].id != row.id) ==>
            && r.Some? && blobSeq <= r.value.1 && (row.key !in blobs ==> row.id < r.value.1)
            && Replaced(blobs, r.value.0, row.key, if row.key in blobs then row.(id := blobs[row.key].id) else row))
  {
  }

  /** A block row whose slot is taken by another row is not stored, and the blob rows saved with it still are. */
  lemma {:induction false} SaveClash(t: Tables, block: BlockRow, rows: seq<BlobRow>)
    requires block.slot in t.blocks && block.id != t.blocks[block.slot].id
    ensures var t' := SaveBlockAndBlob(t, block, rows);
      && t'.blocks == t.blocks && t'.bundles == t.bundles
      && (BlobIds(t.blobs, t.blobSeq) && DistinctKeys(rows) && (forall i :: 0 <= i < |rows| ==> BlobFits(t.blobs, rows[i])) ==>
            Stored(t.blobs, rows, t'.blobs))
  {
    if BlobIds(t.blobs, t.blobSeq) && DistinctKeys(rows) && (forall i :: 0 <= i < |rows| ==> BlobFits(t.blobs, rows[i])) {
      UpsertBlobsFits(t.blobs, t.blobSeq, rows);
    }
  }

  /** If one of the blob rows clashes, none of them is stored, without error, and the block row saved with them still is. */
  lemma {:induction false} RowsClash(t: Tables, block: BlockRow, rows: seq<BlobRow>)
    requires BlockIds(t.blocks, t.blockSeq) && BlockFits(t.blocks, block) && 0 < t.blockSeq
    requires UpsertBlobs(t.blobs, t.blobSeq, rows).None?
    ensures var t' := SaveBlockAndBlob(t, block, rows);
      && t'.blobs == t.blobs && t'.bundles == t.bundles
      && block.slot in t'.blocks && t'.blocks[block.slot].(id := 0) == block.(id := 0)
      && (forall n :: n in t.blocks ==> n in t'.blocks && (n != block.slot ==> t'.blocks[n] == t.blocks[n]))
  {
    SaveBlockFits(t, block);
  }

  /** A block row with the id stored under another slot moves that row to its own slot. */
  lemma {:induction false} SaveMoves(t: Tables, block: BlockRow, n: nat)
    requires BlockIds(t.blocks, t.blockSeq) && n in t.blocks && t.blocks[n].id == block.id && block.slot !in t.blocks
    ensures var t' := SaveBlock(t, block);
      && (forall m :: m in t'.blocks <==> m == block.slot || (m in t.blocks && m != n))
      && (forall m :: m in t'.blocks && m != block.slot ==> t'.blocks[m] == t.blocks[m])
      && block.slot in t'.blocks && t'.blocks[block.slot] == block
  {
  }

  /******* What the data access object relies on *******/

  ghost predicate KeyedBlobs(blobs: BlobTable) {
    forall k :: k in blobs ==> blobs[k].key == k
  }

  /** Every row is filed under its own unique column, and bundles are numbered as they come. */
  ghost predicate Keyed(t: Tables) {
    && (forall n :: n in t.blocks ==> t.blocks[n].slot == n) && KeyedBlobs(t.blobs)
    && (forall b :: b in t.bundles ==> t.bundles[b].id < t.bundleSeq)
  }

  /** The block row and the blob rows can all be stored without touching another row. */
  ghost predicate Fits(t: Tables, block: BlockRow, rows: seq<BlobRow>) {
    && 0 < t.blockSeq && BlockIds(t.blocks, t.blockSeq) && BlockFits(t.blocks, block)
    && BlobIds(t.blobs, t.blobSeq) && DistinctKeys(rows) && forall i :: 0 <= i < |rows| ==> BlobFits(t.blobs, rows[i])
  }

  lemma {:induction false} UpsertBlobKeyed(blobs: BlobTable, blobSeq: nat, row: BlobRow)
    requires KeyedBlobs(blobs)
    ensures UpsertBlob(blobs, blobSeq, row).Some? ==> KeyedBlobs(UpsertBlob(blobs, blobSeq, row).value.0)
  {
  }

  lemma {:induction false} UpsertBlobsKeyed(blobs: BlobTable, blobSeq: nat, rows: seq<BlobRow>)
    requires KeyedBlobs(blobs)
    ensures UpsertBlobs(blobs, blobSeq, rows).Some? ==> KeyedBlobs(UpsertBlobs(blobs, blobSeq, rows).value.0)
    decreases |rows|
  {
    if rows != [] {
      var last := |rows| - 1;
      UpsertBlobsKeyed(blobs, blobSeq, rows[..last]);
      match UpsertBlobs(blobs, blobSeq, rows[..last])
      case None =>
      case Some((b, n)) => UpsertBlobKeyed(b, n, rows[last]);
    }
  }

  lemma {:induction false} SaveKeyed(t: Tables, block: BlockRow, rows: seq<BlobRow>)
    requires Keyed(t)
    ensures Keyed(SaveBlockAndBlob(t, block, rows))
  {
    var t1 := SaveBlock(t, block);
    UpsertBlobsKeyed(t1.blobs, t1.blobSeq, rows);
  }

  ghost predicate Outranks(bundles: BundleTable, names: set<BundleId>, b: BundleId) {
    b in names && b in bundles && forall c :: c in names && c in bundles ==> bundles[c].id <= bundles[b].id
  }

  lemma {:induction false} LatestExists(bundles: BundleTable, names: set<BundleId>)
    requires names != {} && names <= bundles.Keys
    ensures exists b :: Outranks(bundles, names, b)
    decreases |names|
  {
    var y :| y in names;
    var rest := names - {y};
    assert forall c :: c in names ==> c == y || c in rest;
    if rest == {} {
      assert Outranks(bundles, names, y);
    } else {
      LatestExists(bundles, rest);
      var m :| Outranks(bundles, rest, m);
      assert Outranks(bundles, names, if bundles[m].id < bundles[y].id then y else m);
    }
  }
}
