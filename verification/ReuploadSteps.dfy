/** Every step of a re-upload keeps the invariant. */
module ReuploadSteps {
  import opened Types
  import opened Dao
  import opened Protocol
  import opened Invariant
  import opened Frames
  import opened VerifySteps
  import Chain
  import SyncSteps

  lemma {:induction false} DeprecateStep(env: Env, s: State, now: int, t: State)
    requires VerSide(env, s) && ReuploadNext(env, s, Deprecate(now)) == Some(t)
    ensures VerSide(env, t) && VerFrame(s, t)
  {
    assert BundleFits(env, s.next, s.ver.b, s.db.bundles[s.ver.b]);
    SyncSteps.StatusChanges(env, s.next, s.db, s.ver.b, BundleStatus.Deprecated);
    Deprecated(env, s, t);
  }

  lemma {:induction false} Deprecated(env: Env, s: State, t: State)
    requires VerSide(env, s) && s.ver.RDeprecate? && TablesFit(env, s.next, t.db)
    requires t.db == s.db.(bundles := t.db.bundles) && t == s.(db := t.db, before := s.db, ver := t.ver)
    requires t.ver.RDir? && t.ver.v == s.ver.v && t.ver.b == s.ver.b && Replaces(t.ver.nb, s.ver.b)
    requires forall c :: c in t.db.bundles <==> c in s.db.bundles
    requires forall c :: Past(s.db.bundles, c) ==> Past(t.db.bundles, c)
    requires forall c :: IsPending(t.db.bundles, c) ==> IsPending(s.db.bundles, c)
    ensures VerSide(env, t) && VerFrame(s, t)
  {
    hide TablesFit, Evident, Uploaded, VerDirs;
  }

  lemma {:induction false} MakeNewDirStep(env: Env, s: State, t: State)
    requires VerSide(env, s) && ReuploadNext(env, s, MakeNewDir) == Some(t)
    ensures VerSide(env, t) && VerFrame(s, t)
  {
    hide TablesFit, Evident, Uploaded;
    Moves(env, s, t);
  }

  lemma {:induction false} CopyIsApart(bundles: BundleTable, b: BundleId, nb: BundleId, after: BundleTable)
    requires Apart(bundles) && b in bundles && OneRange(nb, b)
    requires forall c :: c in after <==> c in bundles || c == nb
    ensures Apart(after)
  {
  }

  /** A calibrated row for a range that is saved up to its end keeps the tables fitting. */
  lemma {:induction false} CalibratedRow(env: Env, next: nat, db: Tables, nb: BundleId, b: BundleId, now: int)
    requires TablesFit(env, next, db) && Past(db.bundles, b) && Replaces(nb, b)
    ensures var t := CreateBundle(db, nb, true, now);
      && TablesFit(env, next, t) && t.blocks == db.blocks && t.blobs == db.blobs && nb in t.bundles
      && (forall c :: c in db.bundles ==> c in t.bundles && t.bundles[c] == db.bundles[c])
      && (forall c :: IsPending(t.bundles, c) ==> IsPending(db.bundles, c))
  {
    hide BlobRows, BlobIds, BlockIds, Counts, Slots, Apart;
    var t := CreateBundle(db, nb, true, now);
    assert BundleFits(env, next, b, db.bundles[b]);
    assert Apart(t.bundles) by { CopyIsApart(db.bundles, b, nb, t.bundles); }
    forall c | IsPending(t.bundles, c) ensures IsPending(db.bundles, c) {
      assert c == nb ==> nb in db.bundles;
    }
    assert Homes(t.blocks, t.bundles);
    forall c | c in t.bundles ensures BundleFits(env, next, c, t.bundles[c]) {
      assert c in db.bundles ==> BundleFits(env, next, c, db.bundles[c]);
    }
  }

  /** At the start of the loop the frontier opens at the first slot of the range. */
  lemma {:induction false} FrontierOpens(env: Env, blocks: BlockTable, v: nat, b: BundleId)
    requires Frontier(blocks) && IsEarliestUnverified(blocks, v) && b.Covers(v)
    ensures OpenFrontier(env, blocks, b, b.lo)
  {
  }

  lemma {:induction false} MakeNewRowMeans(env: Env, s: State, now: int, t: State)
    requires TablesFit(env, s.next, s.db) && VerAt(env, s) && ReuploadNext(env, s, MakeNewRow(now)) == Some(t)
    ensures s.ver.RRow? && StartsLoop(s, t) && TablesFit(env, s.next, t.db)
  {
    CalibratedRow(env, s.next, s.db, s.ver.nb, s.ver.b, now);
  }

  lemma {:induction false} MakeNewRowStep(env: Env, s: State, now: int, t: State)
    requires VerSide(env, s) && ReuploadNext(env, s, MakeNewRow(now)) == Some(t)
    ensures VerSide(env, t) && VerFrame(s, t)
  {
    MakeNewRowMeans(env, s, now, t);
    RowMade(env, s, t);
  }

  /** The new row is there, and the loop starts. */
  ghost predicate StartsLoop(s: State, t: State)
    requires s.ver.RRow?
  {
    && t.db.blocks == s.db.blocks && t.db.blobs == s.db.blobs && t == s.(db := t.db, ver := RFiles(s.ver.v, s.ver.b, s.ver.nb, s.ver.b.lo, 0))
    && s.ver.nb in t.db.bundles
    && (forall c :: c in s.db.bundles ==> c in t.db.bundles && t.db.bundles[c] == s.db.bundles[c])
    && (forall c :: IsPending(t.db.bundles, c) ==> IsPending(s.db.bundles, c))
  }

  lemma {:induction false} LoopStartsAt(env: Env, s: State, t: State)
    requires s.ver.RRow? && VerAt(env, s) && StartsLoop(s, t)
    ensures VerAt(env, t) && VerFrame(s, t)
  {
    assert MovedTo(env, t, s.ver.b, s.ver.nb, s.ver.b.lo);
  }

  lemma {:induction false} RowMade(env: Env, s: State, t: State)
    requires VerSide(env, s) && s.ver.RRow? && TablesFit(env, s.next, t.db) && StartsLoop(s, t)
    ensures VerSide(env, t) && VerFrame(s, t)
  {
    hide TablesFit, Evident, Uploaded, VerDirs;
    LoopStartsAt(env, s, t);
    if !s.torn {
      FrontierOpens(env, s.db.blocks, s.ver.v, s.ver.b);
    }
  }

  lemma {:induction false} WriteNewStep(env: Env, s: State, t: State)
    requires VerSide(env, s) && ReuploadNext(env, s, WriteFile(Verifier)) == Some(t)
    ensures VerSide(env, t) && VerFrame(s, t)
  {
    var nb := s.ver.nb;
    OneMoreFile(env, s.dirs[Local(nb)], nb.lo, nb.hi, s.ver.n, s.ver.i);
    NewFileWritten(env, s, t);
  }

  lemma {:induction false} NewFileWritten(env: Env, s: State, t: State)
    requires VerSide(env, s) && s.ver.RFiles? && t.ver.RFiles? && t.ver == s.ver.(i := s.ver.i + 1)
    requires t.ver.i <= |env.sidecars(s.ver.n)|
    requires var d := Local(s.ver.nb);
      && d in t.dirs && t == s.(ver := t.ver, dirs := s.dirs[d := t.dirs[d]])
      && Within(env, t.dirs[d], s.ver.nb.lo, s.ver.nb.hi) && Collected(env, t, d, s.ver.b.lo, s.ver.n, t.ver.i)
    ensures VerSide(env, t) && VerFrame(s, t)
  {
    assert VerDirs(env, t.dirs);
  }

  lemma {:induction false} NewFilesDoneStep(env: Env, s: State, t: State)
    requires VerSide(env, s) && ReuploadNext(env, s, FilesDone(Verifier)) == Some(t)
    ensures VerSide(env, t) && VerFrame(s, t)
  {
    SlotDone(env, s.dirs[Local(s.ver.nb)], s.ver.b.lo, s.ver.n);
    if env.forked(s.ver.n) {
      Skipped(env, s, t);
    } else {
      Unskipped(env, s, t);
    }
  }

  lemma {:induction false} Skipped(env: Env, s: State, t: State)
    requires VerSide(env, s) && s.ver.RFiles? && env.forked(s.ver.n)
    requires t == s.(torn := TornBySlot(env, s, s.db.blocks), ver := Following(s.ver))
    requires Filled(env, s.dirs[Local(s.ver.nb)], s.ver.b.lo, s.ver.n + 1)
    ensures VerSide(env, t) && VerFrame(s, t)
  {
    hide TablesFit, Evident, Named, Uploaded, VerDirs, Broken;
    SkippedFrontier(env, s, t);
    assert Moved(env, s.db.blocks, s.ver.b, s.ver.nb, s.ver.n + 1);
    assert Preserved(env, s.before, s.db, s.ver.b, s.ver.n + 1);
  }

  lemma {:induction false} SkippedFrontier(env: Env, s: State, t: State)
    requires s.ver.RFiles? && VerAt(env, s) && FrontierAt(env, s) && env.forked(s.ver.n)
    requires t == s.(torn := TornBySlot(env, s, s.db.blocks), ver := Following(s.ver))
    ensures FrontierAt(env, t)
  {
    hide Broken, Preserved, Frontier;
    if !s.torn {
      var b, nb, n := s.ver.b, s.ver.nb, s.ver.n;
      assert OpenFrontier(env, s.db.blocks, b, n + 1);
      assert Moved(env, s.db.blocks, b, nb, n + 1);
      FrontierCloses(env, s.db.blocks, b, nb, n + 1);
    }
  }

  lemma {:induction false} Unskipped(env: Env, s: State, t: State)
    requires VerSide(env, s) && s.ver.RFiles? && s.ver.i == |env.sidecars(s.ver.n)| && !env.forked(s.ver.n)
    requires t == s.(ver := RSave(s.ver.v, s.ver.b, s.ver.nb, s.ver.n))
    ensures VerSide(env, t) && VerFrame(s, t)
  {
  }

  /** With one stored row per blob, every new row takes over the id stored under its own name. */
  lemma {:induction false} IdsMatchNames(env: Env, next: nat, n: nat, blobs: BlobTable, rows: seq<BlobRow>)
    requires env.WellFormed() && BlobRows(env, next, blobs) && env.start <= n < next && Rows(env, n) == Some(rows)
    ensures var moved := WithIds(rows, RowsAt(blobs, n));
      && |moved| == |env.sidecars(n)| == |rows|
      && DistinctKeys(moved)
      && (forall i :: 0 <= i < |moved| ==> BlobFits(blobs, moved[i]))
      && (forall i :: 0 <= i < |moved| ==> moved[i].key == BlobKey(n, i) && moved[i].(id := 0) == rows[i])
      && (forall i :: 0 <= i < |moved| ==> moved[i].key in blobs && blobs[moved[i].key].(id := 0) == rows[i])
  {
    Chain.ToBlobsShape(env.eth, n, env.sidecars(n), env.txs(n));
    RowsAtDense(blobs, n, |env.sidecars(n)|);
    var moved := WithIds(rows, RowsAt(blobs, n));
    forall i | 0 <= i < |moved| ensures BlobFits(blobs, moved[i]) && moved[i].key == BlobKey(n, i) && moved[i].(id := 0) == rows[i] {
      assert moved[i] == rows[i].(id := blobs[BlobKey(n, i)].id);
    }
  }

  lemma {:induction false} MovedRows(env: Env, next: nat, n: nat, blobs: BlobTable, blobSeq: nat, rows: seq<BlobRow>)
    requires env.WellFormed() && BlobIds(blobs, blobSeq) && BlobRows(env, next, blobs) && env.start <= n < next
    requires Rows(env, n) == Some(rows)
    ensures var r := UpsertBlobs(blobs, blobSeq, WithIds(rows, RowsAt(blobs, n)));
      r.Some? && BlobIds(r.value.0, r.value.1) && r.value.0 == blobs
  {
    var moved := WithIds(rows, RowsAt(blobs, n));
    IdsMatchNames(env, next, n, blobs, rows);
    UpsertBlobsFits(blobs, blobSeq, moved);
    StoredAgain(blobs, moved, UpsertBlobs(blobs, blobSeq, moved).value.0);
  }

  /** Storing rows that are there already, ids included, changes nothing. */
  lemma {:induction false} StoredAgain(blobs: BlobTable, rows: seq<BlobRow>, after: BlobTable)
    requires Stored(blobs, rows, after)
    requires forall i :: 0 <= i < |rows| ==> rows[i].key in blobs && blobs[rows[i].key].(id := 0) == rows[i].(id := 0)
    ensures after == blobs
  {
    forall k | k in blobs ensures after[k] == blobs[k] {
      if Among(rows, k) {
        var i :| 0 <= i < |rows| && rows[i].key == k;
        assert after[k].(id := 0) == rows[i].(id := 0) == blobs[k].(id := 0);
      }
    }
  }

  /** Saving slot n again under a new name changes its block row only in name, header and status, keeping the id. */
  lemma {:induction false} MovedTables(env: Env, next: nat, n: nat, nb: BundleId, db: Tables, rows: seq<BlobRow>)
    requires env.WellFormed() && TablesFit(env, next, db) && n in db.blocks && Rows(env, n) == Some(rows)
    requires nb in db.bundles && nb.Covers(n)
    ensures var block := BlockOf(env, n, nb).(id := db.blocks[n].id);
      var t := SaveBlockAndBlob(db, block, WithIds(rows, RowsAt(db.blobs, n)));
      TablesFit(env, next, t) && t.blocks == db.blocks[n := block] && t.bundles == db.bundles && t.blobs == db.blobs
  {
    hide BlobRows, BlobIds, BlockIds, Bundles, Apart;
    var block := BlockOf(env, n, nb).(id := db.blocks[n].id);
    SaveBlockFits(db, block);
    MovedRows(env, next, n, db.blobs, db.blobSeq, rows);
    var t := SaveBlockAndBlob(db, block, WithIds(rows, RowsAt(db.blobs, n)));
    assert t.blocks == db.blocks[n := block];
    assert Slots(env, next, t.blocks) && Homes(t.blocks, t.bundles) && Counts(env, t.blocks);
  }

  /** Once slot n is Processed again, the opening moves up by one slot, and closes at the end of the range. */
  lemma {:induction false} FrontierMoves(env: Env, blocks: BlockTable, after: BlockTable, b: BundleId, n: nat)
    requires OpenFrontier(env, blocks, b, n) && b.Covers(n) && !env.forked(n) && n in blocks && n in after
    requires after[n].status.Processed? && after == blocks[n := after[n]]
    ensures OpenFrontier(env, after, b, n + 1)
  {
  }

  /** What saving a moved slot does, field by field, leaving the tables to the database. */
  ghost predicate MovesSlot(env: Env, s: State, t: State, block: BlockRow)
    requires s.ver.RSave?
  {
    && s.up && s.ver.n in s.db.blocks && Rows(env, s.ver.n).Some?
    && block == BlockOf(env, s.ver.n, s.ver.nb).(id := s.db.blocks[s.ver.n].id)
    && t == s.(db := t.db, evidence := s.evidence - {s.ver.n}, torn := TornBySlot(env, s, t.db.blocks), ver := Following(s.ver))
  }

  lemma {:induction false} SaveMovedMeans(env: Env, s: State, t: State) returns (block: BlockRow)
    requires ReuploadNext(env, s, SaveMoved) == Some(t)
    ensures s.ver.RSave? && MovesSlot(env, s, t, block)
    ensures t.db == SaveBlockAndBlob(s.db, block, WithIds(Rows(env, s.ver.n).value, RowsAt(s.db.blobs, s.ver.n)))
  {
    block := BlockOf(env, s.ver.n, s.ver.nb).(id := s.db.blocks[s.ver.n].id);
  }

  lemma {:induction false} MovedSlotTables(env: Env, s: State, t: State) returns (block: BlockRow)
    requires env.WellFormed() && TablesFit(env, s.next, s.db) && VerAt(env, s) && ReuploadNext(env, s, SaveMoved) == Some(t)
    ensures s.ver.RSave? && MovesSlot(env, s, t, block)
    ensures TablesFit(env, t.next, t.db) && t.db.bundles == s.db.bundles && t.db.blocks == s.db.blocks[s.ver.n := block]
    ensures t.db.blobs == s.db.blobs
  {
    block := SaveMovedMeans(env, s, t);
    MovedTables(env, s.next, s.ver.n, s.ver.nb, s.db, Rows(env, s.ver.n).value);
  }

  lemma {:induction false} MovedSlotAt(env: Env, s: State, t: State, block: BlockRow)
    requires VerAt(env, s) && s.ver.RSave? && MovesSlot(env, s, t, block)
    requires t.db.bundles == s.db.bundles && t.db.blocks == s.db.blocks[s.ver.n := block] && t.db.blobs == s.db.blobs
    ensures VerAt(env, t)
  {
    SlotDone(env, s.dirs[Local(s.ver.nb)], s.ver.b.lo, s.ver.n);
    SlotMoved(env, s, t.db, s.ver.b, s.ver.nb, s.ver.n, block);
    LoopGoesOn(env, s, t);
  }

  lemma {:induction false} MovedSlotFrontier(env: Env, s: State, t: State, block: BlockRow)
    requires s.ver.RSave? && FrontierAt(env, s) && MovesSlot(env, s, t, block)
    requires s.ver.b.Covers(s.ver.n) && !env.forked(s.ver.n)
    requires t.db.blocks == s.db.blocks[s.ver.n := block] && Moved(env, t.db.blocks, s.ver.b, s.ver.nb, s.ver.n + 1)
    requires block.status.Processed?
    ensures FrontierAt(env, t)
  {
    hide Broken, Preserved, BlockOf, Rows, Moved, Frontier, OpenFrontier;
    if !s.torn {
      var b, nb, n := s.ver.b, s.ver.nb, s.ver.n;
      FrontierMoves(env, s.db.blocks, t.db.blocks, b, n);
      FrontierCloses(env, t.db.blocks, b, nb, n + 1);
    }
  }

  lemma {:induction false} MovedSlotInv(env: Env, s: State, t: State, block: BlockRow)
    requires VerInv(env, s) && s.ver.RSave? && MovesSlot(env, s, t, block)
    requires t.db.bundles == s.db.bundles && t.db.blocks == s.db.blocks[s.ver.n := block] && t.db.blobs == s.db.blobs
    ensures VerInv(env, t) && VerFrame(s, t)
  {
    hide Broken, Preserved, Moved;
    MovedSlotAt(env, s, t, block);
    SlotMoved(env, s, t.db, s.ver.b, s.ver.nb, s.ver.n, block);
    MovedSlotFrontier(env, s, t, block);
    StillEvident(env, s, t, s.ver.n);
    MovedFramed(env, s, t, block);
  }

  lemma {:induction false} SaveMovedStep(env: Env, s: State, t: State)
    requires env.WellFormed() && VerSide(env, s) && ReuploadNext(env, s, SaveMoved) == Some(t)
    ensures VerSide(env, t) && VerFrame(s, t)
  {
    var block := MovedSlotTables(env, s, t);
    MovedSlotInv(env, s, t, block);
  }

  lemma {:induction false} SlotMoved(env: Env, s: State, db: Tables, b: BundleId, nb: BundleId, n: nat, block: BlockRow)
    requires MovedTo(env, s, b, nb, n) && b.Covers(n) && !env.forked(n) && n in s.db.blocks
    requires db.bundles == s.db.bundles && db.blocks == s.db.blocks[n := block] && db.blobs == s.db.blobs
    requires block.id == s.db.blocks[n].id && block.bundle == nb && block.status.Processed?
    ensures Moved(env, db.blocks, b, nb, n + 1) && Preserved(env, s.before, db, b, n + 1)
  {
  }

  lemma {:induction false} StillEvident(env: Env, s: State, t: State, n: nat)
    requires Evident(env, s.db.blocks, s.evidence) && t.evidence == s.evidence - {n} && n in s.db.blocks && n in t.db.blocks
    requires t.db.blocks == s.db.blocks[n := t.db.blocks[n]] && !t.db.blocks[n].status.Verified?
    requires Named(s.db, s.evidence) && t.db.bundles == s.db.bundles
    ensures Evident(env, t.db.blocks, t.evidence) && Named(t.db, t.evidence)
  {
  }

  lemma {:induction false} MovedFramed(env: Env, s: State, t: State, block: BlockRow)
    requires s.up && s.ver.RSave? && s.ver.n in s.db.blocks && t.db.bundles == s.db.bundles && t.db.blobs == s.db.blobs
    requires t == s.(db := t.db, evidence := t.evidence, torn := t.torn, ver := t.ver) && t.db.blocks == s.db.blocks[s.ver.n := block]
    ensures VerFrame(s, t)
  {
  }

  lemma {:induction false} LoopGoesOn(env: Env, s: State, t: State)
    requires s.ver.RSave? && VerAt(env, s) && t.up && t.ver == Following(s.ver) && t.dirs == s.dirs && t.before == s.before
    requires t.db.bundles == s.db.bundles
    requires Moved(env, t.db.blocks, s.ver.b, s.ver.nb, s.ver.n + 1)
    requires Preserved(env, s.before, t.db, s.ver.b, s.ver.n + 1)
    requires Filled(env, s.dirs[Local(s.ver.nb)], s.ver.b.lo, s.ver.n + 1)
    ensures VerAt(env, t)
  {
    assert MovedTo(env, t, s.ver.b, s.ver.nb, s.ver.n + 1);
  }

  lemma {:induction false} NewUploadIsExact(env: Env, s: State)
    requires VerInv(env, s) && s.ver.RUpload?
    ensures Local(s.ver.nb) in s.dirs && s.dirs[Local(s.ver.nb)] == Expected(env, s.ver.nb.lo, s.ver.nb.hi)
  {
    ExactDirectory(env, s.dirs[Local(s.ver.nb)], s.ver.nb.lo, s.ver.nb.hi);
  }

  lemma {:induction false} AfterNewUpload(env: Env, s: State, t: State)
    requires VerSide(env, s) && s.ver.RUpload? && Uploaded(env, t.uploads)
    requires t == s.(uploads := t.uploads, ver := t.ver)
    requires t.ver == RRemove(s.ver.v, s.ver.b, s.ver.nb) || t.ver == VIdle
    ensures VerSide(env, t) && VerFrame(s, t)
  {
  }

  lemma {:induction false} UploadNewStep(env: Env, s: State, reported: bool, t: State)
    requires VerSide(env, s) && ReuploadNext(env, s, UploadDir(Verifier, reported)) == Some(t)
    ensures VerSide(env, t) && VerFrame(s, t)
  {
    NewUploadIsExact(env, s);
    SyncSteps.OneMoreUpload(env, s, t, Upload(s.ver.nb, s.dirs[Local(s.ver.nb)]));
    AfterNewUpload(env, s, t);
  }

  lemma {:induction false} RemoveNewStep(env: Env, s: State, a: Action, t: State)
    requires VerSide(env, s) && ReuploadNext(env, s, a) == Some(t)
    requires a == RemoveDir(Verifier) || a == Refused(Verifier)
    ensures VerSide(env, t) && VerFrame(s, t)
  {
    hide TablesFit, Evident, Uploaded;
    Moves(env, s, t);
  }

  lemma {:induction false} MarkNewStep(env: Env, s: State, t: State)
    requires VerSide(env, s) && ReuploadNext(env, s, Mark(Verifier)) == Some(t)
    ensures VerSide(env, t) && VerFrame(s, t)
  {
    assert BundleFits(env, s.next, s.ver.nb, s.db.bundles[s.ver.nb]);
    SyncSteps.StatusChanges(env, s.next, s.db, s.ver.nb, Finalized);
    NewMarked(env, s, t);
  }

  lemma {:induction false} NewMarked(env: Env, s: State, t: State)
    requires VerSide(env, s) && s.ver.RMark? && TablesFit(env, s.next, t.db) && t.db.blocks == s.db.blocks
    requires t.db.blobs == s.db.blobs && t == s.(db := t.db, ver := VIdle)
    requires forall c :: c in t.db.bundles <==> c in s.db.bundles
    requires forall c :: Past(s.db.bundles, c) ==> Past(t.db.bundles, c)
    requires forall c :: IsPending(t.db.bundles, c) ==> IsPending(s.db.bundles, c)
    ensures VerSide(env, t) && VerFrame(s, t)
  {
  }

  predicate IsReuploadAction(a: Action) {
    || a.Deprecate? || a.MakeNewDir? || a.MakeNewRow? || a == WriteFile(Verifier) || a == FilesDone(Verifier) || a.SaveMoved?
    || (a.UploadDir? && a.who.Verifier?) || a == Refused(Verifier) || a == RemoveDir(Verifier) || a == Mark(Verifier)
  }

  lemma {:induction false} OnlyReuploadActions(env: Env, s: State, a: Action)
    requires OfVerifier(a) && ReuploadNext(env, s, a).Some?
    ensures IsReuploadAction(a)
  {
  }

  lemma {:induction false} ReuploadStep(env: Env, s: State, a: Action, t: State)
    requires env.WellFormed() && VerSide(env, s) && IsReuploadAction(a) && ReuploadNext(env, s, a) == Some(t)
    ensures VerSide(env, t) && VerFrame(s, t)
  {
    match a
    case Deprecate(now) => DeprecateStep(env, s, now, t);
    case MakeNewDir => MakeNewDirStep(env, s, t);
    case MakeNewRow(now) => MakeNewRowStep(env, s, now, t);
    case WriteFile(_) => WriteNewStep(env, s, t);
    case FilesDone(_) => NewFilesDoneStep(env, s, t);
    case SaveMoved => SaveMovedStep(env, s, t);
    case UploadDir(_, reported) => UploadNewStep(env, s, reported, t);
    case Mark(_) => MarkNewStep(env, s, t);
    case RemoveDir(_) => RemoveNewStep(env, s, a, t);
    case Refused(_) => RemoveNewStep(env, s, a, t);
  }
}
