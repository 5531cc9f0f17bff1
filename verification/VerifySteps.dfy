/** Every step of the verify thread that checks, marks or gives up keeps the invariant. */
module VerifySteps {
  import opened Types
  import opened Dao
  import opened Protocol
  import opened Invariant
  import opened Frames
  import Chain
  import Checks
  import Checksum
  import SyncSteps

  /** What the verify thread relies on and re-establishes. */
  ghost predicate VerSide(env: Env, s: State) {
    s.up && TablesFit(env, s.next, s.db) && VerInv(env, s) && Uploaded(env, s.uploads)
  }

  /** A step that only moves the verify thread on, at most changing its own directories. */
  ghost predicate OnlyMoves(s: State, t: State) {
    && t == s.(ver := t.ver, dirs := t.dirs)
    && (forall b: BundleId :: b.Plain() ==>
          (Local(b) in s.dirs <==> Local(b) in t.dirs) && (Local(b) in s.dirs ==> t.dirs[Local(b)] == s.dirs[Local(b)]))
  }

  lemma {:induction false} Moves(env: Env, s: State, t: State)
    requires VerSide(env, s) && OnlyMoves(s, t) && VerAt(env, t) && VerDirs(env, t.dirs)
    requires !(s.ver.RFiles? || s.ver.RSave?) && !(t.ver.RFiles? || t.ver.RSave?)
    ensures VerSide(env, t) && VerFrame(s, t)
  {
  }

  lemma {:induction false} PickStep(env: Env, s: State, t: State)
    requires VerSide(env, s) && VerifyNext(env, s, Pick) == Some(t)
    ensures VerSide(env, t) && VerFrame(s, t)
  {
    var v := t.ver.v;
    assert IsEarliestUnverified(s.db.blocks, v);
    Moves(env, s, t);
  }

  lemma {:induction false} OpenStep(env: Env, s: State, a: Action, t: State)
    requires VerSide(env, s) && VerifyNext(env, s, a) == Some(t)
    requires a == Open || a.Stale? || a == CountOff
    ensures VerSide(env, t) && VerFrame(s, t)
  {
    Moves(env, s, t);
  }

  /** With no row recorded in the range, the chain has no blob in its saved slots. */
  lemma {:induction false} NothingRecorded(env: Env, next: nat, db: Tables, b: BundleId, n: nat)
    requires TablesFit(env, next, db) && Past(db.bundles, b) && KeysBetween(db.blobs, b.lo, b.hi) == {} && b.Covers(n)
    ensures Supports(env, NoBlobsInBundle(b, next), n)
  {
    assert BundleFits(env, next, b, db.bundles[b]);
    assert BlobKey(n, 0) !in KeysBetween(db.blobs, b.lo, b.hi);
  }

  lemma {:induction false} NothingStoredStep(env: Env, s: State, t: State)
    requires VerSide(env, s) && VerifyNext(env, s, NothingStored) == Some(t)
    ensures VerSide(env, t) && VerFrame(s, t)
  {
    var b := s.ver.b;
    forall n: nat | b.Covers(n) ensures Supports(env, NoBlobsInBundle(b, s.next), n) {
      NothingRecorded(env, s.next, s.db, b, n);
    }
    Moves(env, s, t);
  }

  lemma {:induction false} RebuildStep(env: Env, s: State, t: State)
    requires VerSide(env, s) && VerifyNext(env, s, Rebuild) == Some(t)
    ensures VerSide(env, t) && VerFrame(s, t)
  {
    hide TablesFit, Evident, Uploaded;
    Moves(env, s, t);
  }

  lemma {:induction false} WriteStep(env: Env, s: State, t: State)
    requires VerSide(env, s) && VerifyNext(env, s, WriteFile(Verifier)) == Some(t)
    ensures VerSide(env, t) && VerFrame(s, t)
  {
    var b := s.ver.b;
    OneMoreFile(env, s.dirs[Scratch(b)], b.lo, b.hi, s.ver.n, s.ver.i);
    assert VerDirs(env, t.dirs);
    Moves(env, s, t);
  }

  lemma {:induction false} FilesDoneStep(env: Env, s: State, t: State)
    requires VerSide(env, s) && VerifyNext(env, s, FilesDone(Verifier)) == Some(t)
    ensures VerSide(env, t) && VerFrame(s, t)
  {
    hide TablesFit, Evident, Uploaded;
    SlotDone(env, s.dirs[Scratch(s.ver.b)], s.ver.b.lo, s.ver.n);
    Moves(env, s, t);
  }

  /** The rebuilt directory is the one a complete upload comes from. */
  lemma {:induction false} RebuildIsExact(env: Env, s: State)
    requires VerSide(env, s) && s.ver.VCompare?
    ensures Scratch(s.ver.b) in s.dirs && s.dirs[Scratch(s.ver.b)] == Expected(env, s.ver.b.lo, s.ver.b.hi)
  {
    var b := s.ver.b;
    ExactDirectory(env, s.dirs[Scratch(b)], b.lo, b.hi);
  }

  lemma {:induction false} CompareMeans(env: Env, s: State, onChain: seq<string>, t: State)
    requires VerifyNext(env, s, Compare(onChain)) == Some(t)
    ensures s.ver.VCompare?
    ensures t.ver == VMarkRange(s.ver.v, s.ver.b, BundleMatched(s.ver.b, onChain)) || t.ver == RDeprecate(s.ver.v, s.ver.b)
    ensures t == s.(ver := t.ver, dirs := if t.ver.VMarkRange? then s.dirs else s.dirs - {Scratch(s.ver.b)})
    ensures t.ver.VMarkRange? ==>
      && env.WellFormed() && Scratch(s.ver.b) in s.dirs
      && var hashes := Checksum.HashList(env.coding, env.pack(s.dirs[Scratch(s.ver.b)]), env.segmentSize);
      hashes.Some? && Checks.ChecksumsMatch(env.base64, hashes.value, onChain)
  {
  }

  lemma {:induction false} CompareStep(env: Env, s: State, onChain: seq<string>, t: State)
    requires VerSide(env, s) && VerifyNext(env, s, Compare(onChain)) == Some(t)
    ensures VerSide(env, t) && VerFrame(s, t)
  {
    CompareMeans(env, s, onChain, t);
    RebuildIsExact(env, s);
    assert t.ver.VMarkRange? ==> forall n: nat :: s.ver.b.Covers(n) ==> Supports(env, t.ver.e, n);
    Compared(env, s, t);
  }

  lemma {:induction false} Compared(env: Env, s: State, t: State)
    requires VerSide(env, s) && s.ver.VCompare?
    requires t == s.(ver := t.ver, dirs := t.dirs) && (t.dirs == s.dirs || t.dirs == s.dirs - {Scratch(s.ver.b)})
    requires t.ver == RDeprecate(s.ver.v, s.ver.b) || (t.ver.VMarkRange? && t.ver.v == s.ver.v && t.ver.b == s.ver.b)
    requires t.ver.VMarkRange? ==>
      && t.ver.e.b == s.ver.b && !OneByOne(t.ver.e)
      && forall n: nat :: s.ver.b.Covers(n) ==> Supports(env, t.ver.e, n)
    ensures VerSide(env, t) && VerFrame(s, t)
  {
    Moves(env, s, t);
  }

  lemma {:induction false} NoBlobsStep(env: Env, s: State, t: State)
    requires VerSide(env, s) && VerifyNext(env, s, NoBlobs) == Some(t)
    ensures VerSide(env, t) && VerFrame(s, t)
  {
    NoBlobsMeans(env, s, t);
    hide VerifyNext;
    assert s.db.blocks[s.ver.v].blobCount == |env.sidecars(s.ver.v)|;
    Moves(env, s, t);
  }

  lemma {:induction false} NoBlobsMeans(env: Env, s: State, t: State)
    requires VerifyNext(env, s, NoBlobs) == Some(t)
    ensures s.ver.VPicked? && s.detailed && s.ver.v in s.db.blocks && s.db.blocks[s.ver.v].blobCount == 0
    ensures t == s.(ver := VMarkOne(s.ver.v, s.ver.b, NoBlobsInBlock(s.ver.b)))
  {
  }

  lemma {:induction false} PassedReplies(env: Env, v: nat, metas: seq<BlobRow>, replies: seq<Checks.Reply>)
    requires |metas| == |env.sidecars(v)| == |replies|
    requires Checks.CheckBlobs(env.coding.sha, env.sidecars(v), metas, replies, |replies|) == Checks.Pass
    ensures forall i :: 0 <= i < |replies| ==> SameBlob(env.coding.sha, replies[i], env.sidecars(v)[i])
  {
    Checks.PassMeansEachPasses(env.coding.sha, env.sidecars(v), metas, replies, |replies|);
    forall i | 0 <= i < |replies| ensures SameBlob(env.coding.sha, replies[i], env.sidecars(v)[i]) {
      assert Checks.CheckBlob(env.coding.sha, env.sidecars(v)[i], metas[i], replies[i]) == Checks.Pass;
    }
  }

  lemma {:induction false} CheckMeans(env: Env, s: State, replies: seq<Checks.Reply>, t: State)
    requires VerifyNext(env, s, CheckReplies(replies)) == Some(t)
    ensures s.ver.VPicked? && t == s.(ver := t.ver)
    ensures t.ver == VMarkOne(s.ver.v, s.ver.b, BlobsMatched(s.ver.b, replies)) || t.ver == RDeprecate(s.ver.v, s.ver.b)
    ensures var metas := RowsAt(s.db.blobs, s.ver.v);
      && |metas| == |env.sidecars(s.ver.v)| == |replies|
      && (t.ver.VMarkOne? ==>
            Checks.CheckBlobs(env.coding.sha, env.sidecars(s.ver.v), metas, replies, |replies|) == Checks.Pass)
  {
  }

  lemma {:induction false} CheckStep(env: Env, s: State, replies: seq<Checks.Reply>, t: State)
    requires VerSide(env, s) && VerifyNext(env, s, CheckReplies(replies)) == Some(t)
    ensures VerSide(env, t) && VerFrame(s, t)
  {
    CheckMeans(env, s, replies, t);
    if t.ver.VMarkOne? {
      PassedReplies(env, s.ver.v, RowsAt(s.db.blobs, s.ver.v), replies);
      assert Supports(env, BlobsMatched(s.ver.b, replies), s.ver.v);
    }
    Checked(env, s, t);
  }

  lemma {:induction false} Checked(env: Env, s: State, t: State)
    requires VerSide(env, s) && s.ver.VPicked? && t == s.(ver := t.ver)
    requires t.ver == RDeprecate(s.ver.v, s.ver.b) || (t.ver.VMarkOne? && t.ver.v == s.ver.v && t.ver.b == s.ver.b)
    requires t.ver.VMarkOne? ==> Supports(env, t.ver.e, s.ver.v) && OneByOne(t.ver.e) && t.ver.e.b == s.ver.b
    ensures VerSide(env, t) && VerFrame(s, t)
  {
    Moves(env, s, t);
  }

  /** Marking saved blocks Verified keeps the tables fitting. */
  lemma {:induction false} BlocksMarked(env: Env, next: nat, db: Tables, lo: nat, hi: nat)
    requires TablesFit(env, next, db)
    ensures TablesFit(env, next, UpdateBlocksStatus(db, lo, hi, Verified))
  {
    hide BlobRows, Bundles, Apart, BlobIds;
    var t := UpdateBlocksStatus(db, lo, hi, Verified);
    assert forall n :: n in t.blocks ==> t.blocks[n].bundle == db.blocks[n].bundle && t.blocks[n].id == db.blocks[n].id;
    assert BlockIds(t.blocks, t.blockSeq);
    assert Slots(env, next, t.blocks);
    assert Homes(t.blocks, t.bundles) && Counts(env, t.blocks);
  }

  lemma {:induction false} FrontierAdvances(blocks: BlockTable, after: BlockTable, v: nat, lo: nat, hi: nat)
    requires Frontier(blocks) && IsEarliestUnverified(blocks, v) && lo <= v <= hi
    requires forall n :: n in after <==> n in blocks
    requires forall n :: n in blocks ==> after[n] == if lo <= n <= hi then blocks[n].(status := Verified) else blocks[n]
    ensures Frontier(after)
  {
  }

  /** The blocks of [lo, hi] are marked Verified, each with evidence that supports it. */
  ghost predicate Marks(env: Env, s: State, t: State, lo: nat, hi: nat) {
    && t == s.(db := UpdateBlocksStatus(s.db, lo, hi, Verified), evidence := t.evidence, ver := t.ver)
    && (forall n :: n in s.db.blocks && lo <= n <= hi ==>
          n in t.evidence && Supports(env, t.evidence[n], n) && NamedBy(s.db, t.evidence[n], n))
    && (forall n :: n in s.db.blocks && !(lo <= n <= hi) && n in s.evidence ==> n in t.evidence && t.evidence[n] == s.evidence[n])
  }

  lemma {:induction false} MarkedFrontier(env: Env, s: State, t: State, v: nat, lo: nat, hi: nat)
    requires FrontierAt(env, s) && Marks(env, s, t, lo, hi) && (s.ver.VMarkRange? || s.ver.VMarkOne?)
    requires (t.ver.VIdle? || t.ver.VSeal?)
    requires IsEarliestUnverified(s.db.blocks, v) && lo <= v <= hi
    ensures FrontierAt(env, t)
  {
    if !s.torn {
      FrontierAdvances(s.db.blocks, t.db.blocks, v, lo, hi);
    }
  }

  lemma {:induction false} Marked(env: Env, s: State, t: State, v: nat, lo: nat, hi: nat)
    requires VerSide(env, s) && Marks(env, s, t, lo, hi) && (s.ver.VMarkRange? || s.ver.VMarkOne?)
    requires t.ver.VIdle? || t.ver.VSeal?
    requires VerAt(env, t)
    requires IsEarliestUnverified(s.db.blocks, v) && lo <= v <= hi
    ensures VerSide(env, t) && VerFrame(s, t)
  {
    BlocksMarked(env, s.next, s.db, lo, hi);
    MarkedFrontier(env, s, t, v, lo, hi);
    MarkedEvident(env, s, t, lo, hi);
    MarksFramed(env, s, t, lo, hi);
  }

  lemma {:induction false} MarksFramed(env: Env, s: State, t: State, lo: nat, hi: nat)
    requires s.up && Marks(env, s, t, lo, hi)
    ensures VerFrame(s, t)
  {
  }

  lemma {:induction false} MarkedEvident(env: Env, s: State, t: State, lo: nat, hi: nat)
    requires Evident(env, s.db.blocks, s.evidence) && Named(s.db, s.evidence) && Marks(env, s, t, lo, hi)
    ensures Evident(env, t.db.blocks, t.evidence) && Named(t.db, t.evidence)
  {
  }

  lemma {:induction false} MarkRangeMeans(env: Env, s: State, t: State)
    requires VerAt(env, s) && VerifyNext(env, s, MarkRange) == Some(t)
    ensures s.ver.VMarkRange? && t.ver == VSeal(s.ver.v, s.ver.b, s.ver.e)
    ensures Marks(env, s, t, s.ver.b.lo, s.ver.b.hi)
  {
  }

  lemma {:induction false} MarkRangeStep(env: Env, s: State, t: State)
    requires VerSide(env, s) && VerifyNext(env, s, MarkRange) == Some(t)
    ensures VerSide(env, t) && VerFrame(s, t)
  {
    MarkRangeMeans(env, s, t);
    Marked(env, s, t, s.ver.v, s.ver.b.lo, s.ver.b.hi);
  }

  lemma {:induction false} MarkOneMeans(env: Env, s: State, t: State)
    requires VerifyNext(env, s, MarkOne) == Some(t)
    ensures s.ver.VMarkOne? && (t.ver == VSeal(s.ver.v, s.ver.b, s.ver.e) || t.ver == VIdle)
    ensures t == s.(
      db := UpdateBlocksStatus(s.db, s.ver.v, s.ver.v, Verified), evidence := s.evidence[s.ver.v := s.ver.e], ver := t.ver)
  {
  }

  lemma {:induction false} MarkedOne(env: Env, s: State, t: State)
    requires s.ver.VMarkOne? && Supports(env, s.ver.e, s.ver.v) && NamedBy(s.db, s.ver.e, s.ver.v)
    requires t == s.(
      db := UpdateBlocksStatus(s.db, s.ver.v, s.ver.v, Verified), evidence := s.evidence[s.ver.v := s.ver.e], ver := t.ver)
    ensures Marks(env, s, t, s.ver.v, s.ver.v)
  {
  }

  lemma {:induction false} MarkOneStep(env: Env, s: State, t: State)
    requires VerSide(env, s) && VerifyNext(env, s, MarkOne) == Some(t)
    ensures VerSide(env, t) && VerFrame(s, t)
  {
    MarkOneMeans(env, s, t);
    MarkedOne(env, s, t);
    Marked(env, s, t, s.ver.v, s.ver.v, s.ver.v);
  }

  lemma {:induction false} Sealed(env: Env, s: State, t: State, db: Tables)
    requires VerSide(env, s) && s.ver.VSeal? && TablesFit(env, s.next, db) && db.blocks == s.db.blocks
    requires t == s.(db := db, ver := t.ver) && (t.ver.VIdle? || t.ver.VLeave?)
    requires forall c :: c in db.bundles <==> c in s.db.bundles
    requires forall c :: Past(s.db.bundles, c) ==> Past(db.bundles, c)
    requires forall c :: IsPending(db.bundles, c) ==> IsPending(s.db.bundles, c)
    requires db.blobs == s.db.blobs
    ensures VerSide(env, t) && VerFrame(s, t)
  {
    hide TablesFit, Evident, Uploaded, VerDirs;
  }

  lemma {:induction false} SealMeans(env: Env, s: State, t: State)
    requires VerifyNext(env, s, Seal) == Some(t)
    ensures s.ver.VSeal? && (t.ver.VIdle? || t.ver.VLeave?)
    ensures t == s.(db := UpdateBundleStatus(s.db, s.ver.b, BundleStatus.Sealed), ver := t.ver)
  {
  }

  lemma {:induction false} SealStep(env: Env, s: State, t: State)
    requires VerSide(env, s) && VerifyNext(env, s, Seal) == Some(t)
    ensures VerSide(env, t) && VerFrame(s, t)
  {
    hide VerifyNext, VerFrame, Uploaded, Evident, VerDirs;
    SealMeans(env, s, t);
    assert BundleFits(env, s.next, s.ver.b, s.db.bundles[s.ver.b]);
    SyncSteps.StatusChanges(env, s.next, s.db, s.ver.b, BundleStatus.Sealed);
    Sealed(env, s, t, t.db);
  }

  /** When the loop ends after the slots [b.lo, n), no Verified block lies above a Processed one exactly if none of the range
      lies above a moved slot. */
  lemma {:induction false} FrontierCloses(env: Env, blocks: BlockTable, b: BundleId, nb: BundleId, n: nat)
    requires OpenFrontier(env, blocks, b, n) && Moved(env, blocks, b, nb, n)
    ensures Frontier(blocks) <==> !Broken(env, blocks, b, n)
  {
    if Broken(env, blocks, b, n) {
      var y: nat, x: nat :| Overtaken(env, blocks, b, n, y, x);
      assert blocks[y].status.Processed?;
    }
    if !Frontier(blocks) {
      var x, y :| x in blocks && y in blocks && y < x && blocks[y].status.Processed? && blocks[x].status.Verified?;
      assert Overtaken(env, blocks, b, n, y, x);
    }
  }

  /** Giving up keeps the frontier or records that it broke. */
  lemma {:induction false} FrontierStops(env: Env, s: State, t: State)
    requires VerAt(env, s) && FrontierAt(env, s) && t.db.blocks == s.db.blocks && t.torn == TornByStop(env, s) && t.ver.VIdle?
    ensures FrontierAt(env, t)
  {
    if !s.torn && Moving(s.ver) {
      FrontierCloses(env, s.db.blocks, s.ver.b, s.ver.nb, s.ver.n);
    }
  }

  lemma {:induction false} StopStep(env: Env, s: State, t: State)
    requires VerSide(env, s) && VerifyNext(env, s, Stop) == Some(t)
    ensures VerSide(env, t) && VerFrame(s, t)
  {
    hide TablesFit, Evident, Named, Uploaded, Broken, FrontierAt;
    FrontierStops(env, s, t);
  }

  lemma {:induction false} VerifyStep(env: Env, s: State, a: Action, t: State)
    requires VerSide(env, s) && OfVerifier(a) && VerifyNext(env, s, a) == Some(t)
    ensures VerSide(env, t) && VerFrame(s, t)
  {
    hide VerSide, VerFrame;
    match a
    case Pick => PickStep(env, s, t);
    case NothingStored => NothingStoredStep(env, s, t);
    case Rebuild => RebuildStep(env, s, t);
    case WriteFile(_) => WriteStep(env, s, t);
    case FilesDone(_) => FilesDoneStep(env, s, t);
    case Compare(onChain) => CompareStep(env, s, onChain, t);
    case NoBlobs => NoBlobsStep(env, s, t);
    case CheckReplies(replies) => CheckStep(env, s, replies, t);
    case MarkRange => MarkRangeStep(env, s, t);
    case MarkOne => MarkOneStep(env, s, t);
    case Seal => SealStep(env, s, t);
    case Stop => StopStep(env, s, t);
    case _ => OpenStep(env, s, a, t);
  }
}
