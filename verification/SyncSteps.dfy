/** Every step of the sync thread keeps the invariant. */
module SyncSteps {
  import opened Types
  import opened Dao
  import opened Protocol
  import opened Invariant
  import opened Frames
  import Chain

  /** What the sync thread relies on and re-establishes. */
  ghost predicate SyncSide(env: Env, s: State) {
    TablesFit(env, s.next, s.db) && SyncInv(env, s) && Uploaded(env, s.uploads)
  }

  /** Whatever the tables hold and whatever start is configured, the code computes that slot and no other. */
  lemma {:induction false} NextIsLeastBeyond(blocks: BlockTable, start: nat, next: nat)
    ensures next == NextBlockNumOrSlot(blocks, start) <==> LeastBeyond(blocks, start, next)
  {
    var latest := LatestSlot(blocks);
    if LeastBeyond(blocks, start, next) && blocks != map[] {
      assert latest < next;
    }
  }

  /** The slot the code computes from the block table is the first one not saved. */
  lemma {:induction false} NextIsComputed(env: Env, next: nat, blocks: BlockTable)
    requires 0 < env.start && Slots(env, next, blocks)
    ensures NextBlockNumOrSlot(blocks, env.start) == next
  {
    var latest := LatestSlot(blocks);
    if env.start < next {
      assert next - 1 in blocks;
      assert blocks != map[];
      assert next - 1 <= latest;
    } else {
      assert blocks == map[] by {
        assert forall n: nat :: n !in blocks;
      }
    }
  }

  lemma {:induction false} BeginStep(env: Env, s: State, t: State)
    requires env.WellFormed() && SyncSide(env, s) && SyncNext(env, s, Begin) == Some(t)
    ensures SyncSide(env, t) && SyncFrame(s, t)
  {
    NextIsComputed(env, s.next, s.db.blocks);
  }

  lemma {:induction false} MakeDirStep(env: Env, s: State, t: State)
    requires SyncSide(env, s) && SyncNext(env, s, MakeDir) == Some(t)
    ensures SyncSide(env, t) && SyncFrame(s, t)
  {
    hide TablesFit, Uploaded;
  }

  /** Every other bundle ends where the new one starts, or before. */
  lemma {:induction false} NewIsApart(env: Env, next: nat, bundles: BundleTable, b: BundleId, after: BundleTable)
    requires Bundles(env, next, bundles) && Apart(bundles) && b.lo == next
    requires forall c :: IsPending(bundles, c) ==> c == b
    requires forall c :: c in after <==> c in bundles || c == b
    ensures Apart(after)
  {
    forall c | c in bundles && c != b ensures c.hi <= b.lo {
      assert BundleFits(env, next, c, bundles[c]);
      assert !IsPending(bundles, c);
    }
  }

  lemma {:induction false} NewRow(env: Env, next: nat, db: Tables, b: BundleId, now: int)
    requires TablesFit(env, next, db) && b.Plain() && env.start <= b.lo == next <= b.hi < UINT64_LIMIT
    requires forall c :: IsPending(db.bundles, c) ==> c == b
    ensures var t := CreateBundle(db, b, false, now);
      && TablesFit(env, next, t) && t.blocks == db.blocks && t.blobs == db.blobs && b in t.bundles
      && (forall c :: c in db.bundles ==> c in t.bundles && t.bundles[c] == db.bundles[c])
      && (forall c :: IsPending(t.bundles, c) ==> c == b)
  {
    hide Apart, BlobRows, BlobIds, BlockIds, Counts, Slots;
    var t := CreateBundle(db, b, false, now);
    forall c | IsPending(t.bundles, c) ensures c == b {
      assert c == b || IsPending(db.bundles, c);
    }
    assert forall c :: c in t.bundles ==> BundleFits(env, next, c, t.bundles[c]);
    assert Apart(t.bundles) by { NewIsApart(env, next, db.bundles, b, t.bundles); }
  }

  lemma {:induction false} MakeRowMeans(env: Env, s: State, t: State, now: int)
    requires SyncNext(env, s, MakeRow(now)) == Some(t)
    ensures s.up && s.sync.SRow? && t == s.(db := CreateBundle(s.db, s.detail, false, now), sync := SFiles(s.sync.n, 0))
  {
  }

  lemma {:induction false} MakeRowStep(env: Env, s: State, t: State, now: int)
    requires SyncSide(env, s) && SyncNext(env, s, MakeRow(now)) == Some(t)
    ensures SyncSide(env, t) && SyncFrame(s, t)
  {
    MakeRowMeans(env, s, t, now);
    NewRow(env, s.next, s.db, s.detail, now);
    RowIsFramed(env, s, t);
  }

  lemma {:induction false} RowIsFramed(env: Env, s: State, t: State)
    requires SyncInv(env, s) && s.sync.SRow? && s.up && t == s.(db := t.db, sync := SFiles(s.sync.n, 0))
    requires t.db.blocks == s.db.blocks && t.db.blobs == s.db.blobs && s.detail in t.db.bundles
    requires forall c :: c in s.db.bundles ==> c in t.db.bundles && t.db.bundles[c] == s.db.bundles[c]
    requires forall c :: IsPending(t.db.bundles, c) ==> c == s.detail
    ensures SyncInv(env, t) && SyncFrame(s, t)
  {
    assert SyncDirs(env, t);
  }

  lemma {:induction false} WriteMeans(env: Env, s: State, t: State)
    requires SyncNext(env, s, WriteFile(Syncer)) == Some(t)
    ensures s.up && s.sync.SFiles? && Local(s.detail) in s.dirs && s.sync.i < |env.sidecars(s.sync.n)|
    ensures t == s.(dirs := Written(env, s.dirs, Local(s.detail), s.sync.n, s.sync.i), sync := SFiles(s.sync.n, s.sync.i + 1))
  {
  }

  lemma {:induction false} WriteStep(env: Env, s: State, t: State)
    requires SyncSide(env, s) && SyncNext(env, s, WriteFile(Syncer)) == Some(t)
    ensures SyncSide(env, t) && SyncFrame(s, t)
  {
    WriteMeans(env, s, t);
    OneMoreFile(env, s.dirs[Local(s.detail)], s.detail.lo, s.detail.hi, s.sync.n, s.sync.i);
    FileWritten(env, s, t);
  }

  lemma {:induction false} FileWritten(env: Env, s: State, t: State)
    requires SyncInv(env, s) && s.up && s.sync.SFiles? && s.sync.i < |env.sidecars(s.sync.n)|
    requires var d := Local(s.detail);
      && d in s.dirs && d in t.dirs
      && t == s.(dirs := s.dirs[d := t.dirs[d]], sync := SFiles(s.sync.n, s.sync.i + 1))
      && Within(env, t.dirs[d], s.detail.lo, s.detail.hi) && Filled(env, t.dirs[d], s.detail.lo, s.sync.n)
      && Begun(t.dirs[d], s.sync.n, s.sync.i + 1)
    ensures SyncInv(env, t) && SyncFrame(s, t)
  {
    assert SyncAt(env, t);
    assert SyncDirs(env, t);
  }

  lemma {:induction false} QuietMeans(env: Env, s: State, a: Action, t: State)
    requires SyncInv(env, s) && SyncNext(env, s, a) == Some(t)
    requires a == FilesDone(Syncer) || a == Found || a == Refused(Syncer) || a == Fail
    ensures s.up && t == s.(sync := t.sync) && SyncAt(env, t)
  {
    hide SyncDirs, Tiled;
  }

  lemma {:induction false} QuietStep(env: Env, s: State, a: Action, t: State)
    requires SyncSide(env, s) && SyncNext(env, s, a) == Some(t)
    requires a == FilesDone(Syncer) || a == Found || a == Refused(Syncer) || a == Fail
    ensures SyncSide(env, t) && SyncFrame(s, t)
  {
    QuietMeans(env, s, a, t);
    MovedOn(env, s, t);
  }

  lemma {:induction false} MovedOn(env: Env, s: State, t: State)
    requires SyncSide(env, s) && s.up && t == s.(sync := t.sync) && SyncAt(env, t)
    ensures SyncSide(env, t) && SyncFrame(s, t)
  {
    hide TablesFit, Uploaded, SyncAt;
  }

  lemma {:induction false} RemoveStep(env: Env, s: State, t: State)
    requires SyncSide(env, s) && SyncNext(env, s, RemoveDir(Syncer)) == Some(t)
    ensures SyncSide(env, t) && SyncFrame(s, t)
  {
    hide TablesFit, Uploaded;
  }

  lemma {:induction false} CompleteDirectory(env: Env, d: Dir, lo: nat, hi: nat)
    requires lo <= hi && Within(env, d, lo, hi) && Filled(env, d, lo, hi) && Begun(d, hi, |env.sidecars(hi)|)
    ensures d == Expected(env, lo, hi)
  {
    SlotDone(env, d, lo, hi);
    ExactDirectory(env, d, lo, hi);
  }

  lemma {:induction false} OneMoreUpload(env: Env, s: State, t: State, u: Upload)
    requires Uploaded(env, s.uploads) && t.uploads == s.uploads + {u}
    requires u.content == Expected(env, u.b.lo, u.b.hi) && u.content != map[]
    ensures Uploaded(env, t.uploads)
  {
  }

  /** The directory is complete when it is uploaded. */
  lemma {:induction false} UploadIsExact(env: Env, s: State)
    requires SyncInv(env, s) && s.sync.SUpload? && Local(s.detail) in s.dirs
    ensures s.dirs[Local(s.detail)] == Expected(env, s.detail.lo, s.detail.hi)
  {
    CompleteDirectory(env, s.dirs[Local(s.detail)], s.detail.lo, s.detail.hi);
  }

  lemma {:induction false} AfterUpload(env: Env, s: State, t: State, reported: bool)
    requires SyncInv(env, s) && s.sync.SUpload? && s.up
    requires t == s.(uploads := t.uploads, sync := if reported then SRemove(s.sync.n) else SIdle)
    ensures SyncInv(env, t) && SyncFrame(s, t)
  {
  }

  lemma {:induction false} UploadStep(env: Env, s: State, reported: bool, t: State)
    requires SyncSide(env, s) && SyncNext(env, s, UploadDir(Syncer, reported)) == Some(t)
    ensures SyncSide(env, t) && SyncFrame(s, t)
  {
    UploadIsExact(env, s);
    OneMoreUpload(env, s, t, Upload(s.detail, s.dirs[Local(s.detail)]));
    AfterUpload(env, s, t, reported);
  }

  /** A bundle whose range is saved up to its end, or beyond, may get any status but Finalizing. */
  lemma {:induction false} StatusChanges(env: Env, next: nat, db: Tables, b: BundleId, status: BundleStatus)
    requires TablesFit(env, next, db) && b in db.bundles && b.hi <= next && !status.Finalizing?
    ensures var t := UpdateBundleStatus(db, b, status);
      && TablesFit(env, next, t) && Past(t.bundles, b) && t == db.(bundles := t.bundles)
      && (forall c :: c in t.bundles <==> c in db.bundles)
      && (forall c :: Past(db.bundles, c) ==> Past(t.bundles, c))
      && (forall c :: IsPending(t.bundles, c) ==> IsPending(db.bundles, c) && c != b)
  {
    var t := UpdateBundleStatus(db, b, status);
    assert forall c :: c in db.bundles && c != b ==> t.bundles[c] == db.bundles[c];
    assert Homes(t.blocks, t.bundles);
    assert Bundles(env, next, t.bundles) by {
      assert forall c :: c in t.bundles ==> BundleFits(env, next, c, db.bundles[c]);
      assert forall c :: IsPending(t.bundles, c) ==> IsPending(db.bundles, c);
    }
  }

  lemma {:induction false} MarkMeans(env: Env, s: State, t: State)
    requires SyncNext(env, s, Mark(Syncer)) == Some(t)
    ensures s.up && s.sync.SMark? && t == s.(db := UpdateBundleStatus(s.db, s.detail, Finalized), sync := SSave(s.sync.n))
  {
  }

  lemma {:induction false} MarkStep(env: Env, s: State, t: State)
    requires SyncSide(env, s) && SyncNext(env, s, Mark(Syncer)) == Some(t)
    ensures SyncSide(env, t) && SyncFrame(s, t)
  {
    MarkMeans(env, s, t);
    StatusChanges(env, s.next, s.db, s.detail, Finalized);
    CurrentMarked(env, s, t);
  }

  lemma {:induction false} CurrentMarked(env: Env, s: State, t: State)
    requires SyncInv(env, s) && s.up && s.sync.SMark?
    requires t == s.(db := UpdateBundleStatus(s.db, s.detail, Finalized), sync := SSave(s.sync.n))
    requires Past(t.db.bundles, s.detail) && forall c :: c in t.db.bundles <==> c in s.db.bundles
    requires forall c :: Past(s.db.bundles, c) ==> Past(t.db.bundles, c)
    requires forall c :: IsPending(t.db.bundles, c) ==> IsPending(s.db.bundles, c) && c != s.detail
    ensures SyncInv(env, t) && SyncFrame(s, t)
  {
    hide Within, Filled, Tiled;
    assert SyncDirs(env, t);
    TiledStays(s, t);
  }

  lemma {:induction false} TiledStays(s: State, t: State)
    requires t.tiles == s.tiles && t.detail == s.detail && t.runStart == s.runStart && t.next == s.next
    ensures Tiled(t) == Tiled(s)
  {
  }

  /** Saving slot n adds its block row and one row per blob. */
  lemma {:induction false} SavedTables(env: Env, n: nat, b: BundleId, db: Tables, rows: seq<BlobRow>)
    requires env.WellFormed() && TablesFit(env, n, db) && Rows(env, n) == Some(rows)
    ensures var t := SaveBlockAndBlob(db, BlockOf(env, n, b), rows);
      && t.blocks == db.blocks[n := BlockOf(env, n, b).(id := db.blockSeq)] && t.bundles == db.bundles
      && 0 < t.blockSeq && BlockIds(t.blocks, t.blockSeq)
      && BlobIds(t.blobs, t.blobSeq) && BlobRows(env, n + 1, t.blobs)
      && BlobsGrow(db.blobs, t.blobs, n)
  {
    assert n !in db.blocks;
    SaveBlockFits(db, BlockOf(env, n, b));
    NewRows(env, n, db.blobs, db.blobSeq, rows);
  }

  lemma {:induction false} NewRows(env: Env, n: nat, blobs: BlobTable, blobSeq: nat, rows: seq<BlobRow>)
    requires env.WellFormed() && BlobIds(blobs, blobSeq) && BlobRows(env, n, blobs)
    requires Rows(env, n) == Some(rows) && env.start <= n
    ensures var r := UpsertBlobs(blobs, blobSeq, rows);
      && r.Some? && BlobIds(r.value.0, r.value.1) && BlobRows(env, n + 1, r.value.0)
      && BlobsGrow(blobs, r.value.0, n)
  {
    Chain.ToBlobsShape(env.eth, n, env.sidecars(n), env.txs(n));
    assert DistinctKeys(rows);
    UpsertBlobsFits(blobs, blobSeq, rows);
    RowsStored(env, n, n, blobs, rows, UpsertBlobs(blobs, blobSeq, rows).value.0);
    forall k | k in blobs ensures !Among(rows, k) {
      assert k.slot < n;
    }
  }

  /** One more slot saved keeps the tables fitting. */
  lemma {:induction false} OneMoreSlot(env: Env, n: nat, b: BundleId, db: Tables, t: Tables)
    requires TablesFit(env, n, db) && b in db.bundles && b.Covers(n)
    requires b.Plain() && db.bundles[b].status.Finalizing? ==> n < b.hi
    requires forall c :: IsPending(db.bundles, c) ==> c == b
    requires t.bundles == db.bundles && t.blocks == db.blocks[n := BlockOf(env, n, b).(id := db.blockSeq)]
    requires 0 < t.blockSeq && BlockIds(t.blocks, t.blockSeq) && BlobIds(t.blobs, t.blobSeq)
    requires BlobRows(env, n + 1, t.blobs)
    ensures TablesFit(env, n + 1, t)
  {
    hide BlobRows, BlobIds, BlockIds, Apart;
    assert Slots(env, n + 1, t.blocks);
    assert Homes(t.blocks, t.bundles);
    assert Counts(env, t.blocks);
    forall c | c in t.bundles ensures BundleFits(env, n + 1, c, t.bundles[c]) {
      assert BundleFits(env, n, c, db.bundles[c]);
      if c.Plain() && db.bundles[c].status.Finalizing? {
        assert IsPending(db.bundles, c);
      }
    }
  }

  /** Storing the rows of slot n leaves one row for each blob of the slots saved before, and of n. */
  lemma {:induction false} RowsStored(env: Env, next: nat, n: nat, before: BlobTable, rows: seq<BlobRow>, after: BlobTable)
    requires env.WellFormed() && BlobRows(env, next, before) && Stored(before, rows, after) && env.start <= n <= next
    requires Rows(env, n).Some? && |rows| == |env.sidecars(n)| == |Rows(env, n).value|
    requires forall i :: 0 <= i < |rows| ==> rows[i].key == BlobKey(n, i) && rows[i].(id := 0) == Rows(env, n).value[i]
    ensures BlobRows(env, if n == next then next + 1 else next, after)
  {
    var next' := if n == next then next + 1 else next;
    forall k | k in after ensures env.start <= k.slot < next' && IsRow(env, k, after[k]) {
      if Among(rows, k) {
        var i :| 0 <= i < |rows| && rows[i].key == k;
        assert after[rows[i].key].(id := 0) == rows[i].(id := 0);
      }
    }
    forall m: nat, i: nat | env.start <= m < next' && i < |env.sidecars(m)| ensures BlobKey(m, i) in after {
      if m == n {
        assert rows[i].key == BlobKey(m, i);
      }
    }
  }

  /** What a Save does, field by field. */
  ghost predicate Saves(env: Env, s: State, t: State)
    requires s.sync.SSave?
  {
    var n := s.sync.n;
    && s.up && Rows(env, n).Some? && n + s.interval < UINT64_LIMIT
    && t == s.(db := t.db, next := n + 1, sync := SIdle, detail := t.detail, tiles := t.tiles)
    && t.db == SaveBlockAndBlob(s.db, BlockOf(env, n, s.detail), Rows(env, n).value)
    && if n == s.detail.hi then t.detail == FirstBundle(n + 1, s.interval) && t.tiles == s.tiles + [t.detail]
       else t.detail == s.detail && t.tiles == s.tiles
  }

  lemma {:induction false} SaveMeans(env: Env, s: State, t: State)
    requires SyncNext(env, s, Save) == Some(t)
    ensures s.sync.SSave? && Saves(env, s, t)
  {
  }

  lemma {:induction false} SaveTables(env: Env, s: State, t: State)
    requires env.WellFormed() && TablesFit(env, s.next, s.db) && SyncAt(env, s) && Current(env, s)
    requires s.sync.SSave? && Saves(env, s, t)
    ensures TablesFit(env, t.next, t.db) && t.db.bundles == s.db.bundles
    ensures t.db.blocks == s.db.blocks[s.next := BlockOf(env, s.next, s.detail).(id := s.db.blockSeq)]
    ensures BlobsGrow(s.db.blobs, t.db.blobs, s.next)
  {
    var n := s.sync.n;
    SavedTables(env, n, s.detail, s.db, Rows(env, n).value);
    OneMoreSlot(env, n, s.detail, s.db, t.db);
  }

  lemma {:induction false} SaveStep(env: Env, s: State, t: State)
    requires env.WellFormed() && SyncSide(env, s) && SyncNext(env, s, Save) == Some(t)
    ensures SyncSide(env, t) && SyncFrame(s, t)
  {
    SaveMeans(env, s, t);
    SaveTables(env, s, t);
    SaveKeepsDirs(env, s, t);
    SaveKeepsCurrent(env, s, t);
    SaveIsFramed(env, s, t);
  }

  lemma {:induction false} SaveKeepsCurrent(env: Env, s: State, t: State)
    requires s.up && Current(env, s) && Tiled(s) && SyncAt(env, s) && s.sync.SSave? && s.next + s.interval < UINT64_LIMIT
    requires t.next == s.next + 1 && t.db.bundles == s.db.bundles && t.interval == s.interval && t.runStart == s.runStart
    requires if s.next == s.detail.hi then t.detail == FirstBundle(t.next, s.interval) && t.tiles == s.tiles + [t.detail]
             else t.detail == s.detail && t.tiles == s.tiles
    ensures Current(env, t) && Tiled(t)
  {
  }

  lemma {:induction false} SaveIsFramed(env: Env, s: State, t: State)
    requires s.up && s.sync.SSave? && s.sync.n == s.next && Slots(env, s.next, s.db.blocks)
    requires t == s.(db := t.db, next := s.next + 1, sync := SIdle, detail := t.detail, tiles := t.tiles)
    requires t.db.bundles == s.db.bundles && BlobsGrow(s.db.blobs, t.db.blobs, s.next)
    requires t.db.blocks == s.db.blocks[s.next := BlockOf(env, s.next, s.detail).(id := s.db.blockSeq)]
    ensures SyncFrame(s, t)
  {
  }

  lemma {:induction false} SaveKeepsDirs(env: Env, s: State, t: State)
    requires SyncDirs(env, s) && SyncAt(env, s) && s.up && Current(env, s) && s.sync.SSave?
    requires t.next == s.next + 1 && t.dirs == s.dirs && t.db.bundles == s.db.bundles
    requires t.detail == s.detail || t.detail.lo == t.next
    ensures SyncDirs(env, t)
  {
    if Local(s.detail) in s.dirs {
      SlotDone(env, s.dirs[Local(s.detail)], s.detail.lo, s.next);
    }
  }

  lemma {:induction false} SyncStep(env: Env, s: State, a: Action, t: State)
    requires env.WellFormed() && SyncSide(env, s) && OfSyncer(a) && SyncNext(env, s, a) == Some(t)
    ensures SyncSide(env, t) && SyncFrame(s, t)
  {
    match a
    case Begin => BeginStep(env, s, t);
    case MakeDir => MakeDirStep(env, s, t);
    case MakeRow(now) => MakeRowStep(env, s, t, now);
    case WriteFile(_) => WriteStep(env, s, t);
    case UploadDir(_, reported) => UploadStep(env, s, reported, t);
    case RemoveDir(_) => RemoveStep(env, s, t);
    case Mark(_) => MarkStep(env, s, t);
    case Save => SaveStep(env, s, t);
    case _ => QuietStep(env, s, a, t);
  }
}
