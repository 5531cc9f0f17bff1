/** The syncer object (syncer/syncer.go, syncer/verifier.go). Its methods take the steps of the protocol in the order of the
    code; between two steps the other thread may do anything it can do. */
module Syncer {
  import opened Types
  import opened Dao
  import opened BlobDb
  import opened Clients
  import opened Protocol
  import opened Invariant
  import opened Frames
  import opened Threads
  import Text
  import Archive
  import Honesty
  import Safety
  import SyncSteps
  import VerifySteps
  import Chain
  import Checks
  import Checksum

  /** How a stage of verify ends: the next one follows, the block is marked Verified, there is nothing to do yet, an error
      is returned, or the bundle is to be uploaded again. */
  datatype Stage = Proceed | Marked | Waiting | Failed | Replace {
    predicate Over() {
      Marked? || Waiting? || Failed?
    }
  }

  predicate IsVerified(blocks: BlockTable, n: nat) {
    n in blocks && blocks[n].status.Verified?
  }

  predicate IsSealed(bundles: BundleTable, b: BundleId) {
    b in bundles && bundles[b].status.Sealed?
  }

  /** Every block of the range that was there is Verified. */
  ghost predicate RangeVerified(before: BlockTable, after: BlockTable, b: BundleId) {
    forall n :: n in before && b.Covers(n) ==> IsVerified(after, n)
  }

  lemma {:induction false} MarksRange(before: BlockTable, db: Tables, v: nat, b: BundleId)
    requires BlocksKept(before, db.blocks) && v in db.blocks && b.Covers(v)
    ensures var t := UpdateBlocksStatus(db, b.lo, b.hi, Verified); RangeVerified(before, t.blocks, b) && IsVerified(t.blocks, v)
  {
  }

  /******* What the bundle service holds *******/

  /** The reply is what the bundle service held under that name. */
  ghost predicate Reported(before: Objects, after: Objects, b: BundleId, key: BlobKey, reply: Checks.Reply) {
    match reply
    case Object(text) => after(b, key) == Some(text)
    case Missing => before(b, key).None?
    case Unavailable => true
  }

  /** Reply i is about blob i of the slot. */
  ghost predicate AllReported(before: Objects, after: Objects, b: BundleId, slot: nat, replies: seq<Checks.Reply>) {
    forall i :: 0 <= i < |replies| ==> Reported(before, after, b, BlobKey(slot, i), replies[i])
  }

  lemma {:induction false} GrowsFromItself(objects: Objects)
    ensures Grows(objects, objects)
  {
  }

  lemma {:induction false} GrowsOn(a: Objects, b: Objects, c: Objects)
    requires Grows(a, b) && Grows(b, c)
    ensures Grows(a, c)
  {
    forall d, k | a(d, k).Some? ensures c(d, k) == a(d, k) {
      assert b(d, k) == a(d, k);
    }
  }

  lemma {:induction false} ReportedLater(
      first: Objects, before: Objects, after: Objects, last: Objects, b: BundleId, key: BlobKey, reply: Checks.Reply)
    requires Grows(first, before) && Grows(after, last) && Reported(before, after, b, key, reply)
    ensures Reported(first, last, b, key, reply)
  {
  }

  lemma {:induction false} OneMoreReport(
      first: Objects, before: Objects, after: Objects, b: BundleId, slot: nat, seen: seq<Checks.Reply>, reply: Checks.Reply)
    requires Grows(first, before) && Grows(before, after) && AllReported(first, before, b, slot, seen)
    requires Reported(before, after, b, BlobKey(slot, |seen|), reply)
    ensures Grows(first, after) && AllReported(first, after, b, slot, seen + [reply])
  {
    hide Grows, Reported;
    GrowsOn(first, before, after);
    GrowsFromItself(first);
    GrowsFromItself(after);
    ReportedLater(first, before, after, after, b, BlobKey(slot, |seen|), reply);
    forall i | 0 <= i < |seen| ensures Reported(first, after, b, BlobKey(slot, i), (seen + [reply])[i]) {
      ReportedLater(first, first, before, after, b, BlobKey(slot, i), seen[i]);
    }
  }

  lemma {:induction false} NothingMoreReported(
      before: Objects, after: Objects, b: BundleId, slot: nat, seen: seq<Checks.Reply>, replies: seq<Checks.Reply>)
    requires seen <= replies && AllReported(before, after, b, slot, seen)
    requires forall i :: |seen| <= i < |replies| ==> replies[i].Unavailable?
    ensures AllReported(before, after, b, slot, replies)
  {
    forall i | 0 <= i < |replies| ensures Reported(before, after, b, BlobKey(slot, i), replies[i]) {
      if i < |seen| {
        assert Reported(before, after, b, BlobKey(slot, i), seen[i]);
      }
    }
  }

  /** The bundle holds an object for blob i of slot v that hashes like the chain's. */
  ghost predicate HoldsBlob(env: Env, objects: Objects, b: BundleId, v: nat, i: nat) {
    && i < |env.sidecars(v)| && objects(b, BlobKey(v, i)).Some?
    && Text.GenerateHash(env.coding.sha, objects(b, BlobKey(v, i)).value)
         == Text.GenerateHash(env.coding.sha, env.sidecars(v)[i].blob)
  }

  ghost predicate HoldsBlobs(env: Env, objects: Objects, b: BundleId, v: nat) {
    forall i: nat :: i < |env.sidecars(v)| ==> HoldsBlob(env, objects, b, v, i)
  }

  /** The bundle had no object for some blob of slot v, or holds one that hashes differently. */
  ghost predicate LacksBlob(env: Env, before: Objects, after: Objects, b: BundleId, v: nat) {
    exists i: nat :: i < |env.sidecars(v)| &&
      (before(b, BlobKey(v, i)).None? || (after(b, BlobKey(v, i)).Some? && !HoldsBlob(env, after, b, v, i)))
  }

  lemma {:induction false} LacksBlobStill(
      env: Env, first: Objects, before: Objects, after: Objects, last: Objects, b: BundleId, v: nat)
    requires Grows(first, before) && Grows(after, last)
    ensures LacksBlob(env, before, after, b, v) ==> LacksBlob(env, first, last, b, v)
  {
    if LacksBlob(env, before, after, b, v) {
      var i: nat :| i < |env.sidecars(v)| &&
        (before(b, BlobKey(v, i)).None? || (after(b, BlobKey(v, i)).Some? && !HoldsBlob(env, after, b, v, i)));
      if before(b, BlobKey(v, i)).None? {
        assert first(b, BlobKey(v, i)).None?;
      } else {
        assert last(b, BlobKey(v, i)) == after(b, BlobKey(v, i));
        assert !HoldsBlob(env, last, b, v, i);
      }
    }
  }

  lemma {:induction false} StillHoldsBlobs(env: Env, before: Objects, after: Objects, b: BundleId, v: nat)
    requires Grows(before, after)
    ensures HoldsBlobs(env, before, b, v) ==> HoldsBlobs(env, after, b, v)
  {
    if HoldsBlobs(env, before, b, v) {
      forall i: nat | i < |env.sidecars(v)| ensures HoldsBlob(env, after, b, v, i) {
        assert HoldsBlob(env, before, b, v, i);
      }
    }
  }

  /** With the chain's rows the verdict on a blob depends on what the bundle service returns alone. */
  lemma {:induction false} VerdictByContent(env: Env, v: nat, i: nat, row: BlobRow, reply: Checks.Reply)
    requires env.WellFormed() && i < |env.sidecars(v)| && IsRow(env, BlobKey(v, i), row)
    ensures Checks.CheckBlob(env.coding.sha, env.sidecars(v)[i], row, reply) == match reply
      case Missing => Checks.Mismatch
      case Unavailable => Checks.Failed
      case Object(text) =>
        if Text.GenerateHash(env.coding.sha, text) == Text.GenerateHash(env.coding.sha, env.sidecars(v)[i].blob) then Checks.Pass
        else Checks.Mismatch
  {
    Chain.ToBlobsShape(env.eth, v, env.sidecars(v), env.txs(v));
    Chain.ToBlobsColumns(env.eth, v, env.sidecars(v), env.txs(v), i);
    assert Chain.HasIndex(env.sidecars(v)[i], i);
  }

  lemma {:induction false} OutcomeByContent(
      env: Env, before: Objects, after: Objects, b: BundleId, v: nat, rows: seq<BlobRow>, replies: seq<Checks.Reply>)
    requires env.WellFormed() && |rows| == |replies| == |env.sidecars(v)|
    requires forall i :: 0 <= i < |rows| ==> IsRow(env, BlobKey(v, i), rows[i])
    requires AllReported(before, after, b, v, replies)
    ensures var outcome := Checks.CheckBlobs(env.coding.sha, env.sidecars(v), rows, replies, |replies|);
      && (outcome.Pass? ==> HoldsBlobs(env, after, b, v))
      && (outcome.Mismatch? ==> LacksBlob(env, before, after, b, v))
  {
    hide IsRow, Checks.CheckBlob;
    var sha, sidecars, n := env.coding.sha, env.sidecars(v), |replies|;
    forall i: nat | i < n ensures Reported(before, after, b, BlobKey(v, i), replies[i]) {
    }
    if Checks.CheckBlobs(sha, sidecars, rows, replies, n).Pass? {
      Checks.PassMeansEachPasses(sha, sidecars, rows, replies, n);
      forall i: nat | i < n ensures HoldsBlob(env, after, b, v, i) {
        VerdictByContent(env, v, i, rows[i], replies[i]);
      }
    } else if Checks.CheckBlobs(sha, sidecars, rows, replies, n).Mismatch? {
      var i := Checks.MismatchHasCause(sha, sidecars, rows, replies, n);
      VerdictByContent(env, v, i, rows[i], replies[i]);
    }
  }

  /** Saved slots stay saved, whatever both threads do. */
  lemma {:induction false} SlotsStay(env: Env, before: seq<Action>, after: seq<Action>)
    requires env.WellFormed() && before <= after && Exec(env, before).Some? && Exec(env, after).Some?
    ensures forall n :: n in Exec(env, before).value.db.blocks ==> n in Exec(env, after).value.db.blocks
  {
    var s, t := Exec(env, before).value, Exec(env, after).value;
    Archive.RunOnlyAdds(env, before, s, after, t);
    forall n | n in s.db.blocks ensures n in t.db.blocks {
      Archive.SavedBlock(env, s, n);
      Archive.SavedBlock(env, t, n);
    }
  }

  /** Bundles once uploaded stay so. */
  lemma {:induction false} NamesStay(env: Env, before: seq<Action>, after: seq<Action>)
    requires env.WellFormed() && before <= after && Exec(env, before).Some? && Exec(env, after).Some?
    ensures Honesty.NamesOf(Exec(env, before).value.uploads) <= Honesty.NamesOf(Exec(env, after).value.uploads)
  {
    var s, t := Exec(env, before).value, Exec(env, after).value;
    Archive.RunOnlyAdds(env, before, s, after, t);
    forall b | b in Honesty.NamesOf(s.uploads) ensures b in Honesty.NamesOf(t.uploads) {
      Honesty.StoredIsNamed(s, b);
      Honesty.StoredIsNamed(t, b);
    }
  }

  /** What a truthful service says of a bundle agrees with what was uploaded, and one that waits is not sealed on the chain. */
  ghost predicate Stands(
      truthful: bool, seals: set<BundleId>, asked: Standing, b: BundleId, before: set<BundleId>, after: set<BundleId>)
  {
    && (truthful && asked.Nowhere? ==> b !in before)
    && (truthful && (asked.Waits? || asked.Arrived?) ==> b in after)
    && (asked.Waits? ==> b !in seals)
  }

  /** The checksums are those of the object packed from exactly the blobs of the range, up to the case of letters. */
  ghost predicate RecordedMatches(env: Env, b: BundleId, onChain: seq<string>) {
    && env.WellFormed() && -1 <= b.hi
    && var hashes := Checksum.HashList(env.coding, env.pack(Expected(env, b.lo, b.hi)), env.segmentSize);
    hashes.Some? && Checks.ChecksumsMatch(env.base64, hashes.value, onChain)
  }

  /******* The object *******/

  /** The step that the outcome of an upload stands for. */
  function UploadStep(who: Thread, result: UploadResult): Action {
    if result.ObjectExistsOrEmpty? then Refused(who) else UploadDir(who, result.StoredAndReported?)
  }

  /** What a finished look at the bundle service leaves in the history: an upload after NotExist, else that it was found; and
      it is never taken as found unless the service said so. */
  ghost predicate Answered(asked: BundleInfo, ok: bool, history: seq<Action>, from: nat) {
    && (asked.NotExist? || asked.Unavailable? ==> NeverFound(Syncer, history, from))
    && (ok ==> if asked.NotExist? then TriedUpload(Syncer, history, from) else !asked.Unavailable? && Takes(history, from, Found))
  }

  lemma {:induction false} AnsweredLater(asked: BundleInfo, ok: bool, from: nat, mid: seq<Action>, history: seq<Action>)
    requires from <= |mid| && mid <= history && NeverFound(Syncer, mid, from) && Answered(asked, ok, history, |mid|)
    ensures Answered(asked, ok, history, from)
  {
    if NeverFound(Syncer, history, |mid|) {
      NeverFoundJoins(Syncer, from, mid, history);
    }
    TriedUploadLater(Syncer, from, |mid|, history);
  }

  class BlobSyncer {
    const env: Env
    const interval: nat
    const detailed: bool
    const blobDao: BlobSvcDB
    const bundleClient: BundleClient
    const chainClient: ChainClient
    const client: SourceClient
    var bundleDetail: BundleId
    var dirs: map<DirId, Dir>
    ghost var state: State
    ghost var history: seq<Action>
    ghost var failures: nat    // calls of the thread at hand that reported an error

    /** The tables, directories and uploads are those of a run of the protocol, an honest one if the bundle service is
        truthful. */
    ghost predicate Follows()
      reads this, blobDao, bundleClient
    {
      && env.WellFormed() && blobDao.Valid() && 0 < interval && client.forked == env.forked
      && Exec(env, history) == Some(state) && state.db == blobDao.db && state.dirs == dirs
      && bundleClient.bundles == Honesty.NamesOf(state.uploads)
      && (bundleClient.truthful ==> Honesty.HonestRun(env, history))
    }

    /** The process is up and its fields are those of the run. */
    ghost predicate Valid()
      reads this, blobDao, bundleClient
    {
      Follows() && state.up && state.detail == bundleDetail && state.interval == interval && state.detailed == detailed
    }

    /** A new process starts from what the last one left in the tables, in the directories and at the bundle service. */
    constructor (
        env: Env, interval: nat, detailed: bool, blobDao: BlobSvcDB, bundleClient: BundleClient, chainClient: ChainClient,
        client: SourceClient, dirs: map<DirId, Dir>, ghost history: seq<Action>)
      requires env.WellFormed() && 0 < interval && blobDao.Valid() && client.forked == env.forked
      requires Exec(env, history).Some? && !Exec(env, history).value.up
      requires Exec(env, history).value.db == blobDao.db && Exec(env, history).value.dirs == dirs
      requires bundleClient.bundles == Honesty.NamesOf(Exec(env, history).value.uploads)
      requires bundleClient.truthful ==> Honesty.HonestRun(env, history)
      ensures Follows() && !state.up && this.history == history
      ensures this.env == env && this.interval == interval && this.detailed == detailed && this.blobDao == blobDao
      ensures this.bundleClient == bundleClient && this.chainClient == chainClient && this.client == client
    {
      this.env := env;
      this.interval := interval;
      this.detailed := detailed;
      this.blobDao := blobDao;
      this.bundleClient := bundleClient;
      this.chainClient := chainClient;
      this.client := client;
      this.dirs := dirs;
      this.bundleDetail := NOWHERE;
      this.history := history;
      this.state := Exec(env, history).value;
      this.failures := 0;
    }

    /** Records that one step of the protocol was taken. */
    ghost method Act(a: Action)
      requires Exec(env, history) == Some(state) && Next(env, state, a).Some?
      requires bundleClient.truthful ==> Honesty.HonestRun(env, history) && Honesty.Truthful(state, a)
      modifies this`state, this`history
      ensures Exec(env, history) == Some(state) && Some(state) == Next(env, old(state), a) && history == old(history) + [a]
      ensures bundleClient.truthful ==> Honesty.HonestRun(env, history)
    {
      assert (history + [a])[..|history|] == history;
      if bundleClient.truthful {
        Honesty.HonestGrows(env, history, state, a);
      }
      state := Next(env, state, a).value;
      history := history + [a];
    }

    /** Counts a call that reported an error. */
    ghost method Note(failed: bool)
      modifies this`failures
      ensures failures == if failed then old(failures) + 1 else old(failures)
      ensures old(Valid()) ==> Valid()
    {
      if failed {
        failures := failures + 1;
      }
    }

    /** A call to the chain or the file system; it may fail. */
    method Call() returns (failed: bool)
      modifies this`failures
      ensures failures == if failed then old(failures) + 1 else old(failures)
    {
      failed := *;
      Note(failed);
    }

    /** Stands for the steps of the other thread; callers know no more about them than what is ensured here. */
    method OtherThread(who: Thread)
      requires Valid()
      modifies this, blobDao, bundleClient
      ensures Valid() && old(history) <= history && failures == old(failures) && ByOther(who, history, |old(history)|)
      ensures Grows(old(bundleClient.objects), bundleClient.objects)
    {
    }

    /** Lets the other thread run: this thread's position and directories are as before, and with them its bundle or block. */
    method Pause(who: Thread)
      requires Valid()
      modifies this, blobDao, bundleClient
      ensures Valid() && old(history) <= history && failures == old(failures) && ByOther(who, history, |old(history)|)
      ensures Grows(old(bundleClient.objects), bundleClient.objects)
      ensures PlaceOf(who, state) == PlaceOf(who, old(state))
      ensures forall d :: Owns(who, d) ==> (d in dirs <==> d in old(dirs)) && (d in dirs ==> dirs[d] == old(dirs)[d])
    {
      OtherThread(who);
      OtherStaysInFrame(env, who, old(history), history);
    }

    /** Bundles once uploaded stay so. */
    twostate lemma BundlesStay()
      requires old(Valid()) && Valid() && old(history) <= history
      ensures old(bundleClient.bundles) <= bundleClient.bundles
    {
      NamesStay(env, old(history), history);
    }

    /** The invariant holds wherever a run has come to. */
    lemma {:induction false} Holds()
      requires Follows()
      ensures Inv(env, state)
    {
      Safety.RunKeeps(env, history);
    }

    lemma {:induction false} RangeIsOrdered()
      requires Valid() && (state.ver.VPicked? || state.ver.RDeprecate?)
      ensures state.ver.b.lo <= state.ver.b.hi
    {
      Holds();
    }

    /** With a truthful bundle service whatever left Finalizing was uploaded, unless its range has no blob. */
    lemma {:induction false} NothingIsLost(b: BundleId)
      requires Valid() && bundleClient.truthful && Past(blobDao.db.bundles, b)
      ensures Honesty.Kept(env, state, b)
    {
      Honesty.HonestRunIsSafe(env, history);
    }

    lemma {:induction false} StartsAtNext()
      requires Follows()
      ensures TablesFit(env, state.next, blobDao.db) && NextBlockNumOrSlot(blobDao.db.blocks, env.start) == state.next
    {
      Holds();
      SyncSteps.NextIsComputed(env, state.next, blobDao.db.blocks);
    }

    /** The slot computed next is the one the current bundle waits for. */
    lemma {:induction false} NextIsDue()
      requires Valid()
      ensures NextBlockNumOrSlot(blobDao.db.blocks, env.start) == state.next
      ensures bundleDetail.Plain() && bundleDetail.Covers(state.next)
    {
      Holds();
      SyncSteps.NextIsComputed(env, state.next, state.db.blocks);
    }

    /** Once its last slot is saved, a bundle is past Finalizing. */
    lemma {:induction false} SavedBundle(b: BundleId, n: nat)
      requires Valid() && n in blobDao.db.blocks && blobDao.db.blocks[n].bundle == b && n == b.hi && b.Plain()
      ensures Past(blobDao.db.bundles, b)
      ensures bundleClient.truthful ==> Honesty.Kept(env, state, b)
    {
      assert Past(state.db.bundles, b) by {
        Holds();
        assert BundleFits(env, state.next, b, state.db.bundles[b]);
      }
      if bundleClient.truthful {
        NothingIsLost(b);
      }
    }

    /******* Starting up *******/

    method GetNextBlockNumOrSlot() returns (r: Result<nat>)
      requires blobDao.Valid()
      modifies this`failures
      ensures r.Ok? ==> r.value == NextBlockNumOrSlot(blobDao.db.blocks, env.start)
      ensures r.Ok? ==> LeastBeyond(blobDao.db.blocks, env.start, r.value)
      ensures failures == if r.Err? then old(failures) + 1 else old(failures)
    {
      var latest := blobDao.GetLatestProcessedBlock();
      Note(latest.Err?);
      SyncSteps.NextIsLeastBeyond(blobDao.db.blocks, env.start, NextBlockNumOrSlot(blobDao.db.blocks, env.start));
      if latest.Err? {
        return Err(latest.error);
      }
      var nextBlockID := env.start;
      if nextBlockID <= latest.value.slot {
        nextBlockID := latest.value.slot + 1;
      }
      return Ok(nextBlockID);
    }

    /** Whatever the tables hold: resumes the latest pending bundle, or starts a new one at the next slot. */
    method LoadProgressAndResume(nextBlockID: nat) returns (ok: bool, ghost pending: Option<BundleId>)
      requires blobDao.Valid() && 0 < interval
      modifies this`bundleDetail, this`failures, blobDao
      ensures blobDao.Valid() && failures == if ok then old(failures) else old(failures) + 1
      ensures match pending
        case Some(b) => IsLatestPending(old(blobDao.db).bundles, b)
        case None => ok ==> forall b :: !IsPending(old(blobDao.db).bundles, b)
      ensures ok ==> (blobDao.db, bundleDetail) == Resume(old(blobDao.db), nextBlockID, interval, pending)
      ensures !ok && (pending.None? || nextBlockID <= pending.value.hi) ==> blobDao.db == old(blobDao.db)
      ensures !ok && pending.Some? ==>
        || blobDao.db == old(blobDao.db)
        || blobDao.db == UpdateBlocksStatus(old(blobDao.db), pending.value.lo, pending.value.hi, Skipped)
    {
      pending := None;
      var startBlockID, endBlockID := nextBlockID, nextBlockID + interval - 1;
      var finalizing := blobDao.GetLatestFinalizingBundle();
      if finalizing.Err? {
        if finalizing.error.Failed? {
          Note(true);
          return false, None;
        }
      } else {
        var b := finalizing.value;
        pending := Some(b);
        startBlockID, endBlockID := b.lo, b.hi;
        if nextBlockID > endBlockID {
          ok := blobDao.UpdateBlocksStatus(startBlockID, endBlockID, Skipped);
          Note(!ok);
          if !ok {
            return false, pending;
          }
          ok := blobDao.UpdateBundleStatus(b, BundleStatus.Deprecated);
          Note(!ok);
          if !ok {
            return false, pending;
          }
          startBlockID := nextBlockID;
          endBlockID := nextBlockID + interval - 1;
        }
      }
      bundleDetail := BundleId(startBlockID, endBlockID, None);
      ok := true;
    }

    method StartLoop() returns (ok: bool)
      requires Follows() && !state.up && state.next + interval < UINT64_LIMIT
      modifies this, blobDao, bundleClient
      ensures old(history) <= history && blobDao.db == old(blobDao.db) && dirs == old(dirs)
      ensures failures == if ok then old(failures) else old(failures) + 1
      ensures if ok then Valid() && state.sync.SIdle? && state.ver.VIdle? else Follows() && !state.up
      ensures ok ==> bundleDetail.lo <= NextBlockNumOrSlot(blobDao.db.blocks, env.start) <= bundleDetail.hi
    {
      hide Exec, Next, Resume, TablesFit;
      var next := GetNextBlockNumOrSlot();
      if next.Err? {
        return false;
      }
      ghost var db := blobDao.db;
      StartsAtNext();
      ghost var pending;
      ok, pending := LoadProgressAndResume(next.value);
      Safety.ResumesInside(env, state.next, db, interval);
      PendingIsLatest(env, state.next, db, pending);
      if !ok {
        return false;
      }
      RestartingIsAStep(env, state, interval, detailed);
      Act(Restart(interval, detailed));
    }

    /******* The sync thread *******/

    method WriteOneFile(who: Thread, ghost at: Place, slot: nat, d: DirId, i: nat) returns (ok: bool)
      requires Valid() && at == PlaceOf(who, state) && Writes(at, d, slot, i)
      requires i < |env.sidecars(slot)| && Owns(who, d) && d in dirs
      modifies this, blobDao, bundleClient
      ensures Grows(old(bundleClient.objects), bundleClient.objects)
      ensures Valid() && old(history) <= history && old(failures) <= failures && d in dirs
      ensures PlaceOf(who, state) == if ok then AtFile(at, i + 1) else at
      ensures ok ==> dirs[d] == old(dirs)[d][BlobKey(slot, i) := env.sidecars(slot)[i].blob]
      ensures !ok ==> old(failures) < failures
      ensures NeverFound(who, history, |old(history)|)
    {
      hide Exec, Next;
      Pause(who);
      ByOtherFindsNothing(who, history, |old(history)|);
      var failed := Call();
      if failed {
        return false;
      }
      WritingIsAStep(env, state, who, d, slot, i);
      dirs := dirs[d := dirs[d][BlobKey(slot, i) := env.sidecars(slot)[i].blob]];
      Act(WriteFile(who));
      ok := true;
    }

    /** Leaves the thread where it was, with some files written; with all of them, unless it fails. */
    method WriteBlobToFile(who: Thread, slot: nat, d: DirId, blobs: seq<Sidecar>) returns (ok: bool, ghost written: nat)
      requires Valid() && blobs == env.sidecars(slot)
      requires Writes(PlaceOf(who, state), d, slot, 0) && Owns(who, d) && d in dirs
      modifies this, blobDao, bundleClient
      ensures Grows(old(bundleClient.objects), bundleClient.objects)
      ensures Valid() && old(history) <= history && old(failures) <= failures && d in dirs
      ensures PlaceOf(who, state) == AtFile(PlaceOf(who, old(state)), written)
      ensures ok ==> written == |blobs| && HoldsFiles(env, dirs[d], slot, |blobs|)
      ensures !ok ==> old(failures) < failures
      ensures NeverFound(who, history, |old(history)|)
    {
      hide Exec, Next;
      ghost var start := PlaceOf(who, state);
      written := 0;
      for i := 0 to |blobs|
        invariant NeverFound(who, history, |old(history)|) && Grows(old(bundleClient.objects), bundleClient.objects)
        invariant Valid() && old(history) <= history && old(failures) <= failures && d in dirs
        invariant written == i && PlaceOf(who, state) == AtFile(start, i) && Writes(AtFile(start, i), d, slot, i)
      {
        ghost var mid := history;
        ok := WriteOneFile(who, AtFile(start, i), slot, d, i);
        NeverFoundJoins(who, |old(history)|, mid, history);
        if !ok {
          return false, i;
        }
        written := i + 1;
      }
      assert HoldsFiles(env, dirs[d], slot, |blobs|) by {
        Holds();
        WrittenFilesAreThere(env, state, who, d, slot, |blobs|);
      }
      ok := true;
    }

    /** The thread gives its work up. */
    ghost method GiveUp(who: Thread)
      requires Valid() && if who.Syncer? then !state.sync.SIdle? else Reuploading(state.ver)
      modifies this`state, this`history
      ensures Valid() && old(history) <= history && PlaceOf(who, state) == Idle(PlaceOf(who, old(state)))
      ensures NeverFound(who, history, |old(history)|)
    {
      hide Exec, Next;
      GivingUpIsAStep(env, state, who);
      Act(if who.Syncer? then Fail else Stop);
    }

    /** The step that the outcome of an upload stands for. */
    ghost method NoteUpload(who: Thread, b: BundleId, before: set<BundleId>, result: UploadResult)
      requires bundleClient.bundles == if result.IsStored() then before + {b} else before
      requires env.WellFormed() && blobDao.Valid() && 0 < interval && client.forked == env.forked
      requires Exec(env, history) == Some(state)
      requires state.db == blobDao.db && state.dirs == dirs && state.up
      requires state.detail == bundleDetail && state.interval == interval && state.detailed == detailed
      requires before == Honesty.NamesOf(state.uploads) && (bundleClient.truthful ==> Honesty.HonestRun(env, history))
      requires Finalizes(PlaceOf(who, state), b, 0) && !result.UploadFailed? && Local(b) in dirs
      requires result.IsStored() ==> dirs[Local(b)] != map[]
      requires result.ObjectExistsOrEmpty? && bundleClient.truthful ==> b in before || dirs[Local(b)] == map[]
      modifies this`state, this`history
      ensures Valid() && history == old(history) + [UploadStep(who, result)]
      ensures if result.Accepted() then
          Finalizes(PlaceOf(who, state), b, 1) && SameWork(PlaceOf(who, old(state)), PlaceOf(who, state))
        else PlaceOf(who, state) == Idle(PlaceOf(who, old(state)))
    {
      hide Exec, Next;
      UploadingIsAStep(env, state, who, b, result.StoredAndReported?);
      Honesty.StoredIsNamed(state, b);
      if result.IsStored() {
        Honesty.NamesGrow(state.uploads, Upload(b, dirs[Local(b)]));
      }
      Act(UploadStep(who, result));
    }

    /** Uploads the directory of the bundle; a bundle that exists or is empty counts as uploaded. */
    method UploadBundle(who: Thread, b: BundleId) returns (ok: bool)
      requires Valid() && Finalizes(PlaceOf(who, state), b, 0) && Owns(who, Local(b))
      modifies this, blobDao, bundleClient
      ensures Grows(old(bundleClient.objects), bundleClient.objects)
      ensures Valid() && old(history) <= history && old(failures) <= failures
      ensures if ok then
          Finalizes(PlaceOf(who, state), b, 1) && SameWork(PlaceOf(who, old(state)), PlaceOf(who, state))
        else PlaceOf(who, state) == Idle(PlaceOf(who, old(state)))
      ensures !ok ==> old(failures) < failures
      ensures ok ==> TriedUpload(who, history, |old(history)|)
      ensures NeverFound(who, history, |old(history)|)
    {
      hide Exec, Next, ByOther, NeverFound, TriedUpload, Takes, Grows;
      Pause(who);
      ByOtherFindsNothing(who, history, |old(history)|);
      ghost var before, mid, objects := bundleClient.bundles, history, bundleClient.objects;
      var result := bundleClient.UploadAndFinalizeBundle(b, if Local(b) in dirs then Some(dirs[Local(b)]) else None);
      GrowsOn(old(bundleClient.objects), objects, bundleClient.objects);
      ok := result.Accepted();
      Note(!ok);
      if result.UploadFailed? {
        GiveUp(who);
        NeverFoundJoins(who, |old(history)|, mid, history);
      } else {
        NoteUpload(who, b, before, result);
        OneMoreFindsNothing(who, |old(history)|, mid, UploadStep(who, result));
        if ok {
          OneMoreTries(who, |old(history)|, mid, UploadStep(who, result));
        }
      }
    }

    method RemoveBundleDir(who: Thread, b: BundleId)
      requires Valid() && Finalizes(PlaceOf(who, state), b, 1)
      modifies this, blobDao, bundleClient
      ensures Grows(old(bundleClient.objects), bundleClient.objects)
      ensures Valid() && old(history) <= history && failures == old(failures) && Finalizes(PlaceOf(who, state), b, 2)
      ensures SameWork(PlaceOf(who, old(state)), PlaceOf(who, state))
      ensures NeverFound(who, history, |old(history)|)
    {
      hide Exec, Next;
      Pause(who);
      ByOtherFindsNothing(who, history, |old(history)|);
      RemovingIsAStep(env, state, who, b);
      dirs := dirs - {Local(b)};
      Act(RemoveDir(who));
    }

    method MarkFinalized(who: Thread, b: BundleId) returns (ok: bool)
      requires Valid() && Finalizes(PlaceOf(who, state), b, 2)
      modifies this, blobDao, bundleClient
      ensures Grows(old(bundleClient.objects), bundleClient.objects)
      ensures Valid() && old(history) <= history && old(failures) <= failures
      ensures var at := PlaceOf(who, old(state)); PlaceOf(who, state) == if ok then AfterFinalizing(at) else Idle(at)
      ensures ok ==> b in blobDao.db.bundles && blobDao.db.bundles[b].status.Finalized?
      ensures ok && who.Verifier? ==> Moved(env, blobDao.db.blocks, old(state).ver.b, b, old(state).ver.b.hi + 1)
      ensures !ok ==> old(failures) < failures
      ensures NeverFound(who, history, |old(history)|)
    {
      hide Exec, Next, ByOther, NeverFound, Grows;
      Pause(who);
      ByOtherFindsNothing(who, history, |old(history)|);
      ghost var mid := history;
      MarkingIsAStep(env, state, who, b);
      assert b in state.db.bundles by { Holds(); }
      assert who.Verifier? ==> Moved(env, state.db.blocks, state.ver.b, b, state.ver.b.hi + 1) by { Holds(); }
      ok := blobDao.UpdateBundleStatus(b, Finalized);
      Note(!ok);
      if ok {
        Act(Mark(who));
        OneMoreFindsNothing(who, |old(history)|, mid, Mark(who));
      } else {
        GiveUp(who);
        NeverFoundJoins(who, |old(history)|, mid, history);
      }
    }

    /** Uploads the bundle, removes its directory and marks its row. */
    method FinalizeBundle(who: Thread, b: BundleId) returns (ok: bool)
      requires Valid() && Finalizes(PlaceOf(who, state), b, 0) && Owns(who, Local(b))
      modifies this, blobDao, bundleClient
      ensures Grows(old(bundleClient.objects), bundleClient.objects)
      ensures Valid() && old(history) <= history && old(failures) <= failures
      ensures var at := PlaceOf(who, old(state)); PlaceOf(who, state) == if ok then AfterFinalizing(at) else Idle(at)
      ensures ok ==> b in blobDao.db.bundles && blobDao.db.bundles[b].status.Finalized?
      ensures ok && who.Verifier? ==> Moved(env, blobDao.db.blocks, old(state).ver.b, b, old(state).ver.b.hi + 1)
      ensures !ok ==> old(failures) < failures
      ensures ok ==> TriedUpload(who, history, |old(history)|)
      ensures NeverFound(who, history, |old(history)|)
      ensures ok && bundleClient.truthful ==> Honesty.Kept(env, state, b)
    {
      hide Exec, Next, Valid, Follows;
      ok := UploadBundle(who, b);
      if ok {
        ghost var mid := history;
        RemoveBundleDir(who, b);
        TriedUploadStays(who, |old(history)|, mid, history);
        NeverFoundJoins(who, |old(history)|, mid, history);
        mid := history;
        ok := MarkFinalized(who, b);
        TriedUploadStays(who, |old(history)|, mid, history);
        NeverFoundJoins(who, |old(history)|, mid, history);
        if ok && bundleClient.truthful {
          NothingIsLost(b);
        }
      }
    }

    method MakeBundleDir() returns (ok: bool)
      requires Valid() && state.sync.SDir?
      modifies this, blobDao, bundleClient
      ensures Valid() && old(history) <= history && old(failures) <= failures
      ensures state.detail == old(state).detail && state.next == old(state).next
      ensures state.sync == if ok then SRow(old(state).sync.n) else SIdle
      ensures ok ==> Local(bundleDetail) in dirs
      ensures !ok ==> old(failures) < failures
      ensures NeverFound(Syncer, history, |old(history)|)
    {
      hide Exec, Next;
      Pause(Syncer);
      ByOtherFindsNothing(Syncer, history, |old(history)|);
      if Local(bundleDetail) !in dirs {
        var failed := Call();
        if failed {
          GiveUp(Syncer);
          return false;
        }
      }
      MakingBundleDirIsAStep(env, state);
      dirs := Made(dirs, Local(bundleDetail));
      Act(MakeDir);
      ok := true;
    }

    method InsertBundleRow() returns (ok: bool)
      requires Valid() && state.sync.SRow? && Local(bundleDetail) in dirs && bundleDetail.Plain()
      modifies this, blobDao, bundleClient
      ensures Valid() && old(history) <= history && old(failures) <= failures
      ensures state.detail == old(state).detail && state.next == old(state).next
      ensures state.sync == if ok then SFiles(old(state).sync.n, 0) else SIdle
      ensures ok ==> bundleDetail in blobDao.db.bundles && Local(bundleDetail) in dirs
      ensures !ok ==> old(failures) < failures
      ensures NeverFound(Syncer, history, |old(history)|)
    {
      hide Exec, Next;
      Pause(Syncer);
      ByOtherFindsNothing(Syncer, history, |old(history)|);
      var now: int := *;
      MakingRowIsAStep(env, state, now);
      ok := blobDao.CreateBundle(bundleDetail, false, now);
      Note(!ok);
      if ok {
        Act(MakeRow(now));
      } else {
        GiveUp(Syncer);
      }
    }

    method CreateLocalBundleDir() returns (ok: bool)
      requires Valid() && state.sync.SDir? && bundleDetail.Plain()
      modifies this, blobDao, bundleClient
      ensures Valid() && old(history) <= history && old(failures) <= failures
      ensures state.detail == old(state).detail && state.next == old(state).next
      ensures state.sync == if ok then SFiles(old(state).sync.n, 0) else SIdle
      ensures ok ==> bundleDetail in blobDao.db.bundles && Local(bundleDetail) in dirs
      ensures !ok ==> old(failures) < failures
      ensures NeverFound(Syncer, history, |old(history)|)
    {
      ok := MakeBundleDir();
      if ok {
        ghost var mid := history;
        ok := InsertBundleRow();
        NeverFoundJoins(Syncer, |old(history)|, mid, history);
      }
    }

    /** Writes the blobs of the slot if the bundle has its directory; a bundle already uploaded has none any more. */
    method CollectBlobs(bundleName: BundleId, blockID: nat, sidecars: seq<Sidecar>) returns (ok: bool)
      requires Valid() && bundleName == bundleDetail && bundleName.Plain() && sidecars == env.sidecars(blockID)
      requires state.sync == SFiles(blockID, 0)
      modifies this, blobDao, bundleClient
      ensures Valid() && old(history) <= history && old(failures) <= failures
      ensures state.detail == old(state).detail && state.next == old(state).next
      ensures state.sync == if !ok then SIdle else if blockID == bundleName.hi then SUpload(blockID) else SSave(blockID)
      ensures !ok ==> old(failures) < failures
      ensures NeverFound(Syncer, history, |old(history)|)
    {
      hide Exec, Next;
      Pause(Syncer);
      ByOtherFindsNothing(Syncer, history, |old(history)|);
      if Local(bundleName) in dirs {
        ghost var written, mid := 0, history;
        ok, written := WriteBlobToFile(Syncer, blockID, Local(bundleName), sidecars);
        NeverFoundJoins(Syncer, |old(history)|, mid, history);
        if !ok {
          GiveUp(Syncer);
          return;
        }
      }
      CollectedIsAStep(env, state, blockID);
      Act(FilesDone(Syncer));
      ok := true;
    }

    /** Uploads the bundle unless the bundle service has it already. */
    method FinalizeUnlessFound(bundleName: BundleId) returns (ok: bool, ghost asked: BundleInfo)
      requires Valid() && bundleName == bundleDetail && bundleName.Plain() && state.sync.SUpload?
      modifies this, blobDao, bundleClient
      ensures Valid() && old(history) <= history && old(failures) <= failures
      ensures state.detail == old(state).detail && state.next == old(state).next
      ensures state.sync == if ok then SSave(old(state).sync.n) else SIdle
      ensures !ok ==> old(failures) < failures
      ensures ok ==> bundleName in blobDao.db.bundles && blobDao.db.bundles[bundleName].status.Finalized?
      ensures Answered(asked, ok, history, |old(history)|)
      ensures bundleClient.truthful && asked.NotExist? ==> bundleName !in old(bundleClient.bundles)
      ensures bundleClient.truthful && asked.Known? ==> bundleName in bundleClient.bundles
      ensures ok && bundleClient.truthful ==> Honesty.Kept(env, state, bundleName)
    {
      hide Exec, Next;
      Pause(Syncer);
      NamesStay(env, old(history), history);
      ByOtherFindsNothing(Syncer, history, |old(history)|);
      ghost var mid := history;
      var info := bundleClient.GetBundleInfo(bundleName);
      asked := info;
      Note(info.Unavailable?);
      if info.Unavailable? {
        GiveUp(Syncer);
        return false, asked;
      }
      if info.NotExist? {
        ok := FinalizeBundle(Syncer, bundleName);
        NeverFoundJoins(Syncer, |old(history)|, mid, history);
        TriedUploadLater(Syncer, |old(history)|, |mid|, history);
        return;
      }
      Honesty.StoredIsNamed(state, bundleName);
      FoundIsAStep(env, state);
      Act(Found);
      ok := MarkFinalized(Syncer, bundleName);
      NamesStay(env, mid, history);
      assert history[|mid|] == Found;
      if ok && bundleClient.truthful {
        NothingIsLost(bundleName);
      }
    }

    /** Brings the slot to the point where it may be saved. `asked` is what the bundle service answered at the end of a bundle. */
    method Process(bundleName: BundleId, blockID: nat, sidecars: seq<Sidecar>)
      returns (ok: bool, ghost asked: Option<BundleInfo>)
      requires Valid() && bundleName == bundleDetail && bundleName.Plain() && sidecars == env.sidecars(blockID)
      requires state.sync == if blockID == bundleName.lo then SDir(blockID) else SFiles(blockID, 0)
      modifies this, blobDao, bundleClient
      ensures Valid() && old(history) <= history && old(failures) <= failures
      ensures state.detail == old(state).detail && state.next == old(state).next
      ensures state.sync == if ok then SSave(blockID) else SIdle
      ensures !ok ==> old(failures) < failures
      ensures ok ==> (asked.Some? <==> blockID == bundleName.hi)
      ensures if asked.Some? then Answered(asked.value, ok, history, |old(history)|)
        else NeverFound(Syncer, history, |old(history)|)
      ensures bundleClient.truthful && asked == Some(NotExist) ==> bundleName !in old(bundleClient.bundles)
      ensures bundleClient.truthful && asked.Some? && asked.value.Known? ==> bundleName in bundleClient.bundles
      ensures ok && blockID == bundleName.hi ==>
        && bundleName in blobDao.db.bundles && blobDao.db.bundles[bundleName].status.Finalized?
        && (bundleClient.truthful ==> Honesty.Kept(env, state, bundleName))
    {
      hide Exec, Next;
      asked := None;
      if blockID == bundleName.lo {
        ok := CreateLocalBundleDir();
        if !ok {
          return;
        }
      }
      ghost var mid := history;
      ok := CollectBlobs(bundleName, blockID, sidecars);
      NeverFoundJoins(Syncer, |old(history)|, mid, history);
      if ok && blockID == bundleName.hi {
        mid := history;
        NamesStay(env, old(history), history);
        ghost var info;
        ok, info := FinalizeUnlessFound(bundleName);
        asked := Some(info);
        AnsweredLater(info, ok, |old(history)|, mid, history);
      }
    }

    /** The rows of a slot: on ETH a slot without beacon block gets a row with nothing but slot and bundle. */
    method ToBlockAndBlobs(n: nat, bundleName: BundleId) returns (r: Option<(BlockRow, seq<BlobRow>)>)
      requires env.WellFormed()
      modifies this`failures
      ensures r.Some? ==> r.value.0 == BlockOf(env, n, bundleName) && Rows(env, n) == Some(r.value.1)
      ensures failures == if r.Some? then old(failures) else old(failures) + 1
    {
      if env.forked(n) {
        return Some((BlockRow(0, n, NO_HEADER, 0, bundleName, Processed), []));
      }
      var failed := Call();
      if failed {
        return None;
      }
      var sidecars := env.sidecars(n);
      var rows := Chain.MakeBlobs(env.eth, n, sidecars, env.txs(n));
      Note(rows.None?);
      if rows.None? {
        return None;
      }
      return Some((BlockRow(0, n, env.header(n), |sidecars|, bundleName, Processed), rows.value));
    }

    /** Saves the slot; after the last slot of a bundle the next bundle begins. */
    method SaveSlot(blockID: nat, bundleName: BundleId) returns (ok: bool)
      requires Valid() && bundleName == bundleDetail && state.sync == SSave(blockID) && blockID + interval < UINT64_LIMIT
      modifies this, blobDao, bundleClient
      ensures Valid() && old(history) <= history && old(failures) <= failures && state.sync.SIdle?
      ensures state.next == if ok then blockID + 1 else old(state).next
      ensures ok ==> blockID in blobDao.db.blocks && blobDao.db.blocks[blockID].(id := 0) == BlockOf(env, blockID, bundleName)
      ensures bundleDetail == if ok && blockID == bundleName.hi then FirstBundle(blockID + 1, interval) else bundleName
      ensures !ok ==> old(failures) < failures
    {
      hide Exec, Next, ByOther, Grows, BlockOf, Rows;
      Pause(Syncer);
      var rows := ToBlockAndBlobs(blockID, bundleName);
      if rows.None? {
        GiveUp(Syncer);
        return false;
      }
      ok := StoreSlot(blockID, bundleName, rows.value.0, rows.value.1);
    }

    method StoreSlot(blockID: nat, bundleName: BundleId, block: BlockRow, blobs: seq<BlobRow>) returns (ok: bool)
      requires Valid() && bundleName == bundleDetail && state.sync == SSave(blockID) && blockID + interval < UINT64_LIMIT
      requires block == BlockOf(env, blockID, bundleName) && Rows(env, blockID) == Some(blobs)
      modifies this, blobDao
      ensures Valid() && old(history) <= history && old(failures) <= failures && state.sync.SIdle?
      ensures state.next == if ok then blockID + 1 else old(state).next
      ensures ok ==> blockID in blobDao.db.blocks && blobDao.db.blocks[blockID].(id := 0) == block
      ensures bundleDetail == if ok && blockID == bundleName.hi then FirstBundle(blockID + 1, interval) else bundleName
      ensures !ok ==> old(failures) < failures
    {
      hide Exec, Next, SaveBlockAndBlob, Rows;
      ok := blobDao.SaveBlockAndBlob(block, blobs);
      Note(!ok);
      if !ok {
        GiveUp(Syncer);
        return;
      }
      SavingIsAStep(env, history, state, blockID);
      Act(Save);
      if blockID == bundleDetail.hi {
        bundleDetail := BundleId(blockID + 1, blockID + interval, None);
      }
    }

    /** Whether the slot can be dealt with for good; asking may fail. */
    method IsDue(blockID: nat) returns (ok: bool, due: bool)
      requires client.forked == env.forked && blockID < UINT64_LIMIT
      modifies this`failures
      ensures ok ==> (due <==> Chain.Settled(env.eth, env.forked(blockID), blockID, client.head))
      ensures failures == if ok then old(failures) else old(failures) + 1
    {
      if !env.eth {
        var finalized := client.GetFinalizedBlockNum();
        Note(finalized.None?);
        return finalized.Some?, finalized.Some? && Chain.ToInt64(blockID) < Chain.ToInt64(finalized.value);
      }
      var block := client.GetBeaconBlock(blockID);
      Note(block.None?);
      if block.None? {
        return false, false;
      }
      var latest: Option<uint64> := Some(0);
      if block.value.Absent? {
        latest := client.GetLatestBeaconBlock();
        Note(latest.None?);
        if latest.None? {
          return false, false;
        }
      }
      return true, !Chain.DueOnEth(block.value, blockID, latest.value).NotYet?;
    }

    /** The next slot, and whether it is due; asking may fail, and so may fetching its sidecars. */
    method NextDue() returns (ok: bool, due: bool, blockID: nat)
      requires Valid() && state.next < UINT64_LIMIT
      modifies this`failures
      ensures Valid() && failures == if ok then old(failures) else old(failures) + 1
      ensures ok ==> blockID == state.next && bundleDetail.Plain() && bundleDetail.Covers(blockID)
      ensures ok ==> (due <==> Chain.Settled(env.eth, env.forked(blockID), blockID, client.head))
    {
      hide Exec, Next;
      var next := GetNextBlockNumOrSlot();
      if next.Err? {
        return false, false, 0;
      }
      blockID := next.value;
      NextIsDue();
      ok, due := IsDue(blockID);
      if ok && due && !env.forked(blockID) {
        var failed := Call();
        ok := !failed;
      }
    }

    ghost method BeginSlot(blockID: nat)
      requires Valid() && state.sync.SIdle? && blockID == state.next
      modifies this`state, this`history
      ensures Valid() && old(history) <= history && state.detail == old(state).detail && state.next == blockID
      ensures state.sync == if blockID == bundleDetail.lo then SDir(blockID) else SFiles(blockID, 0)
    {
      hide Exec, Next;
      NextIsDue();
      BeginningIsAStep(env, state);
      Act(Begin);
    }

    /** One round of the sync loop: unless a call fails it stores the next slot and nothing else, exactly if that slot is settled
        on the chain. If it was the last slot of a bundle, that bundle is Finalized, and with a truthful bundle service it was
        uploaded. */
    method Sync() returns (ok: bool, due: bool)
      requires Valid() && state.sync.SIdle? && state.next + interval < UINT64_LIMIT
      modifies this, blobDao, bundleClient
      ensures Valid() && old(history) <= history && old(failures) <= failures && state.sync.SIdle?
      ensures state.next == if ok && due then old(state).next + 1 else old(state).next
      ensures !ok ==> old(failures) < failures
      ensures !due ==> history == old(history)
      ensures ok ==> (due <==> Chain.Settled(env.eth, env.forked(old(state).next), old(state).next, old(client.head)))
      ensures var n, b := old(state).next, old(bundleDetail);
        ok && due ==>
          && n in blobDao.db.blocks && blobDao.db.blocks[n].(id := 0) == BlockOf(env, n, b) && b.Covers(n)
          && bundleDetail == (if n == b.hi then FirstBundle(n + 1, interval) else b)
          && (n == b.hi ==> Past(blobDao.db.bundles, b) && (bundleClient.truthful ==> Honesty.Kept(env, state, b)))
    {
      hide Exec, Next, SaveBlockAndBlob, Follows, Valid;
      var blockID;
      ok, due, blockID := NextDue();
      if !ok || !due {
        return ok, false;
      }
      var bundleName := bundleDetail;
      BeginSlot(blockID);
      ok := ProcessAndSave(bundleName, blockID);
    }

    /** The rest of a round, for a slot that is due. */
    method ProcessAndSave(bundleName: BundleId, blockID: nat) returns (ok: bool)
      requires Valid() && bundleName == bundleDetail && bundleName.Plain() && blockID == state.next
      requires state.sync == if blockID == bundleName.lo then SDir(blockID) else SFiles(blockID, 0)
      requires blockID + interval < UINT64_LIMIT
      modifies this, blobDao, bundleClient
      ensures Valid() && old(history) <= history && old(failures) <= failures && state.sync.SIdle?
      ensures state.next == if ok then blockID + 1 else blockID
      ensures !ok ==> old(failures) < failures
      ensures ok ==>
        && blockID in blobDao.db.blocks && blobDao.db.blocks[blockID].(id := 0) == BlockOf(env, blockID, bundleName)
        && bundleDetail == (if blockID == bundleName.hi then FirstBundle(blockID + 1, interval) else bundleName)
      ensures ok && blockID == bundleName.hi ==>
        Past(blobDao.db.bundles, bundleName) && (bundleClient.truthful ==> Honesty.Kept(env, state, bundleName))
    {
      hide Exec, Next, SaveBlockAndBlob;
      ghost var asked;
      ok, asked := Process(bundleName, blockID, env.sidecars(blockID));
      if ok {
        ok := SaveSlot(blockID, bundleName);
        if ok && blockID == bundleName.hi {
          SavedBundle(bundleName, blockID);
        }
      }
    }

    /******* The verify thread *******/

    /** The thread gives the verification up; the rebuild directory, if it is in use, goes with it. */
    method StopVerifying(b: BundleId, rebuilt: bool)
      requires Valid() && !state.ver.VIdle? && state.ver.b == b && rebuilt == Rebuilt(state.ver)
      modifies this
      ensures Valid() && old(history) <= history && failures == old(failures) && state.ver.VIdle?
      ensures state == old(state).(dirs := state.dirs, ver := VIdle, torn := state.torn)
    {
      hide Exec, Next;
      StoppingIsAStep(env, state);
      Act(Stop);
      if rebuilt {
        dirs := dirs - {Scratch(b)};
      }
    }

    /** Reads the earliest unverified block. */
    method PickBlock() returns (stage: Stage, block: BlockRow)
      requires Valid() && state.ver.VIdle?
      modifies this, blobDao, bundleClient
      ensures Valid() && old(history) <= history && old(failures) <= failures
      ensures stage.Proceed? || stage.Waiting? || stage.Failed?
      ensures state.ver == if stage.Proceed? then VRead(block.slot, block.bundle) else VIdle
      ensures stage.Proceed? ==> block.blobCount == |env.sidecars(block.slot)|
      ensures stage.Proceed? ==>
        IsEarliestUnverified(old(blobDao.db).blocks, block.slot) && block == old(blobDao.db).blocks[block.slot]
      ensures stage.Waiting? ==> forall n :: n in old(blobDao.db).blocks ==> !old(blobDao.db).blocks[n].status.Processed?
      ensures stage.Failed? ==> old(failures) < failures
      ensures blobDao.db == old(blobDao.db) && bundleClient.objects == old(bundleClient.objects)
    {
      hide Exec, Next;
      var earliest := blobDao.GetEarliestUnverifiedBlock();
      if earliest.Err? {
        Note(earliest.error.Failed?);
        return if earliest.error.NotFound? then Waiting else Stage.Failed, ZERO_BLOCK;
      }
      block := earliest.value;
      assert block.blobCount == |env.sidecars(block.slot)| by { Holds(); }
      PickingIsAStep(env, state, block.slot);
      Act(Pick);
      stage := Proceed;
    }

    /** Reads the bundle; there is nothing to verify before it was uploaded. */
    method OpenBundle(v: nat, b: BundleId) returns (stage: Stage, bundle: BundleRow)
      requires Valid() && state.ver == VRead(v, b)
      modifies this, blobDao, bundleClient
      ensures Valid() && old(history) <= history && old(failures) <= failures
      ensures Grows(old(bundleClient.objects), bundleClient.objects)
      ensures BlocksKept(old(blobDao.db).blocks, blobDao.db.blocks)
      ensures stage.Proceed? || stage.Waiting? || stage.Failed?
      ensures state.ver == if stage.Proceed? then VPicked(v, b) else VIdle
      ensures stage.Proceed? ==> b in blobDao.db.bundles && bundle == blobDao.db.bundles[b]
      ensures b in old(blobDao.db).bundles && (stage.Proceed? ==> bundle.created == old(blobDao.db).bundles[b].created)
      ensures stage.Waiting? ==> b in blobDao.db.bundles && blobDao.db.bundles[b].status.Finalizing?
      ensures stage.Failed? ==> old(failures) < failures
    {
      hide Exec, Next;
      bundle := BundleRow(0, BundleStatus.Finalizing, false, 0);
      assert b in state.db.bundles by { Holds(); }
      PauseKeepingBlocks();
      var found := blobDao.GetBundle(b);
      Note(found.Err?);
      if found.Err? || found.value.status.Finalizing? {
        StopVerifying(b, false);
        return if found.Ok? then Waiting else Stage.Failed, bundle;
      }
      bundle := found.value;
      OpeningIsAStep(env, state, v, b);
      Act(Open);
      stage := Proceed;
    }

    /** Lets the sync thread run: the blocks there are, their rows and the verify thread's own state stay as they are. */
    method PauseKeepingBlocks()
      requires Valid()
      modifies this, blobDao, bundleClient
      ensures Valid() && old(history) <= history && failures == old(failures) && state.ver == old(state).ver
      ensures state.evidence == old(state).evidence
      ensures Grows(old(bundleClient.objects), bundleClient.objects)
      ensures BlocksKept(old(blobDao.db).blocks, blobDao.db.blocks)
      ensures CreatedKept(old(blobDao.db).bundles, blobDao.db.bundles)
      ensures forall d :: Owns(Verifier, d) ==> (d in dirs <==> d in old(dirs)) && (d in dirs ==> dirs[d] == old(dirs)[d])
    {
      hide Exec, Next;
      Pause(Verifier);
      SyncThreadOnlyAdds(env, old(history), history);
    }

    /** Marks the blocks in the range of the bundle. */
    method MarkRangeVerified(v: nat, b: BundleId) returns (ok: bool)
      requires Valid() && state.ver.VMarkRange? && state.ver.v == v && state.ver.b == b
      modifies this, blobDao, bundleClient
      ensures Valid() && old(history) <= history && old(failures) <= failures
      ensures Grows(old(bundleClient.objects), bundleClient.objects)
      ensures state.ver == if ok then VSeal(v, b, old(state).ver.e) else old(state).ver
      ensures ok ==> IsVerified(blobDao.db.blocks, v) && v in state.evidence && state.evidence[v] == old(state).ver.e
      ensures ok ==> RangeVerified(old(blobDao.db).blocks, blobDao.db.blocks, b)
      ensures !ok ==> old(failures) < failures
    {
      hide Exec, Next, Dao.UpdateBlocksStatus, RangeVerified;
      PauseKeepingBlocks();
      PickedIsSaved();
      MarksRange(old(blobDao.db).blocks, blobDao.db, v, b);
      MarkingRangeIsAStep(env, state, v, b);
      ok := blobDao.UpdateBlocksStatus(b.lo, b.hi, Verified);
      Note(!ok);
      if ok {
        Act(MarkRange);
      }
    }

    lemma {:induction false} PickedIsSaved()
      requires Valid() && (state.ver.VMarkRange? || state.ver.VMarkOne? || state.ver.VPicked?)
      ensures state.ver.v in state.db.blocks && state.ver.b.Covers(state.ver.v)
    {
      Holds();
    }

    lemma {:induction false} SealingIsRecorded()
      requires Valid() && state.ver.VSeal?
      ensures state.ver.b in blobDao.db.bundles
    {
      Holds();
    }

    method SealBundle(b: BundleId) returns (ok: bool)
      requires Valid() && state.ver.VSeal? && state.ver.b == b
      modifies this, blobDao, bundleClient
      ensures Valid() && old(history) <= history && old(failures) <= failures
      ensures Grows(old(bundleClient.objects), bundleClient.objects)
      ensures state.ver ==
        if !ok then old(state).ver else if old(state).ver.e.BundleMatched? then VLeave(old(state).ver.v, b) else VIdle
      ensures BlocksKept(old(blobDao.db).blocks, blobDao.db.blocks) && state.evidence == old(state).evidence
      ensures ok ==> IsSealed(blobDao.db.bundles, b)
      ensures !ok ==> old(failures) < failures
    {
      hide Exec, Next;
      PauseKeepingBlocks();
      SealingIsRecorded();
      SealingIsAStep(env, state, b);
      ok := blobDao.UpdateBundleStatus(b, BundleStatus.Sealed);
      Note(!ok);
      if ok {
        Act(Seal);
      }
    }

    method MarkOneVerified(v: nat, b: BundleId) returns (ok: bool)
      requires Valid() && state.ver.VMarkOne? && state.ver.v == v && state.ver.b == b
      modifies this, blobDao, bundleClient
      ensures Valid() && old(history) <= history && old(failures) <= failures
      ensures Grows(old(bundleClient.objects), bundleClient.objects)
      ensures state.ver ==
        if !ok then old(state).ver else if v == b.hi then VSeal(v, b, old(state).ver.e) else VIdle
      ensures ok ==> IsVerified(blobDao.db.blocks, v) && v in state.evidence && state.evidence[v] == old(state).ver.e
      ensures !ok ==> old(failures) < failures
    {
      hide Exec, Next;
      PauseKeepingBlocks();
      PickedIsSaved();
      MarkingOneIsAStep(env, state, v, b);
      ok := blobDao.UpdateBlockStatus(v, Verified);
      Note(!ok);
      if ok {
        Act(MarkOne);
      }
    }

    /** Marks the range, then seals the bundle. */
    method MarkAndSeal(v: nat, b: BundleId, rebuilt: bool) returns (ok: bool)
      requires Valid() && state.ver.VMarkRange? && state.ver.v == v && state.ver.b == b
      requires rebuilt == state.ver.e.BundleMatched?
      modifies this, blobDao, bundleClient
      ensures Valid() && old(history) <= history && old(failures) <= failures && state.ver.VIdle?
      ensures Grows(old(bundleClient.objects), bundleClient.objects)
      ensures ok ==> IsVerified(blobDao.db.blocks, v) && v in state.evidence && state.evidence[v] == old(state).ver.e
      ensures ok ==> RangeVerified(old(blobDao.db).blocks, blobDao.db.blocks, b) && IsSealed(blobDao.db.bundles, b)
      ensures !ok ==> old(failures) < failures
    {
      hide Exec, Next;
      ok := MarkRangeVerified(v, b);
      if ok {
        ok := SealBundle(b);
      }
      if rebuilt || !ok {
        StopVerifying(b, rebuilt);
      }
    }

    /** The bundle service has no such bundle: fine exactly when no blob is recorded in its range. */
    method MarkIfEmpty(v: nat, b: BundleId) returns (ok: bool)
      requires Valid() && state.ver == VPicked(v, b) && (v == b.lo || !detailed)
      modifies this, blobDao, bundleClient
      ensures Valid() && old(history) <= history && old(failures) <= failures && state.ver.VIdle?
      ensures Grows(old(bundleClient.objects), bundleClient.objects)
      ensures ok ==> IsVerified(blobDao.db.blocks, v) && v in state.evidence && state.evidence[v].NoBlobsInBundle?
      ensures ok ==> RangeVerified(old(blobDao.db).blocks, blobDao.db.blocks, b) && IsSealed(blobDao.db.bundles, b)
      ensures ok ==> KeysBetween(old(blobDao.db).blobs, b.lo, b.hi) == {}
      ensures !ok ==> old(failures) < failures || KeysBetween(blobDao.db.blobs, b.lo, b.hi) != {}
    {
      hide Exec, Next;
      var blobs := blobDao.GetBlobBetweenBlocks(b.lo, b.hi);
      Note(blobs.Err?);
      if blobs.Err? || blobs.value != {} {
        StopVerifying(b, false);
        return false;
      }
      NothingStoredIsAStep(env, state, v, b);
      Act(NothingStored);
      ok := MarkAndSeal(v, b, false);
    }

    method AskForBundle(b: BundleId) returns (info: BundleInfo)
      requires Valid() && b in blobDao.db.bundles
      modifies this, blobDao, bundleClient
      ensures Valid() && old(history) <= history && failures == old(failures) && state.ver == old(state).ver
      ensures Grows(old(bundleClient.objects), bundleClient.objects)
      ensures BlocksKept(old(blobDao.db).blocks, blobDao.db.blocks)
      ensures b in blobDao.db.bundles && blobDao.db.bundles[b].created == old(blobDao.db).bundles[b].created
      ensures bundleClient.told == info
      ensures bundleClient.truthful && info.NotExist? ==> b !in old(bundleClient.bundles)
      ensures bundleClient.truthful && info.Known? ==> b in bundleClient.bundles
    {
      hide Exec, Next;
      PauseKeepingBlocks();
      NamesStay(env, old(history), history);
      info := bundleClient.GetBundleInfo(b);
    }

    /** The bundle is not sealed: that is fine until the threshold has passed. */
    method WaitForSeal(v: nat, b: BundleId, created: int) returns (stage: Stage, ghost now: int)
      requires Valid() && state.ver == VPicked(v, b) && (v == b.lo || !detailed)
      requires b in blobDao.db.bundles && created == blobDao.db.bundles[b].created
      modifies this
      ensures Valid() && old(history) <= history && failures == old(failures)
      ensures stage == if created > 0 && now - created > env.threshold then Replace else Waiting
      ensures state.ver == if stage.Replace? then RDeprecate(v, b) else VIdle
    {
      hide Exec, Next;
      var clock: int := *;
      now := clock;
      if created > 0 && clock - created > env.threshold {
        StaleIsAStep(env, state, v, b, clock);
        Act(Stale(clock));
        return Replace, now;
      }
      StopVerifying(b, false);
      return Waiting, now;
    }

    /** Asks for the bundle, and the chain for its object if that may not be sealed yet; one that stays unsealed past the
        threshold is uploaded again. The answers decide. */
    method CheckSealed(v: nat, b: BundleId, created: int) returns (stage: Stage, ghost asked: Standing, ghost now: int)
      requires Valid() && state.ver == VPicked(v, b) && (v == b.lo || !detailed)
      requires b in blobDao.db.bundles && created == blobDao.db.bundles[b].created
      modifies this, blobDao, bundleClient
      ensures Valid() && old(history) <= history && old(failures) <= failures
      ensures Grows(old(bundleClient.objects), bundleClient.objects)
      ensures stage.Proceed? ==> BlocksKept(old(blobDao.db).blocks, blobDao.db.blocks)
      ensures state.ver == match stage case Proceed => VPicked(v, b) case Replace => RDeprecate(v, b) case _ => VIdle
      ensures match asked
        case Unknown => stage.Failed? && old(failures) < failures
        case Nowhere =>
          || (stage.Marked? && EmptyMarked(v, b, old(blobDao.db).blocks))
          || (stage.Failed? && (old(failures) < failures || KeysBetween(blobDao.db.blobs, b.lo, b.hi) != {}))
        case Waits => stage == if created > 0 && now - created > env.threshold then Replace else Waiting
        case Arrived => stage.Proceed?
      ensures Stands(bundleClient.truthful, chainClient.seals, asked, b, old(bundleClient.bundles), bundleClient.bundles)
      ensures asked.Arrived? ==> bundleClient.told == Known(false) || b in chainClient.seals
    {
      hide Exec, Next, KeysBetween, Valid, Follows, IsVerified, IsSealed;
      now := 0;
      var info := AskForBundle(b);
      match info
      case Unavailable =>
        Note(true);
        StopVerifying(b, false);
        return Stage.Failed, Unknown, now;
      case NotExist =>
        var ok := MarkIfEmpty(v, b);
        return if ok then Marked else Stage.Failed, Nowhere, now;
      case Known(onItsWay) =>
        if onItsWay {
          var objectMeta := chainClient.GetObjectMeta(b);
          Note(objectMeta.None?);
          if objectMeta.None? {
            StopVerifying(b, false);
            return Stage.Failed, Unknown, now;
          }
          if !objectMeta.value.isSealed {
            stage, now := WaitForSeal(v, b, created);
            return stage, Waits, now;
          }
        }
        return Proceed, Arrived, now;
    }

    /** Block v is Verified with its whole range, because no blob was recorded there, and the bundle is Sealed. */
    ghost predicate EmptyMarked(v: nat, b: BundleId, before: BlockTable)
      reads this, blobDao
    {
      && IsVerified(blobDao.db.blocks, v) && v in state.evidence && state.evidence[v].NoBlobsInBundle?
      && RangeVerified(before, blobDao.db.blocks, b) && IsSealed(blobDao.db.bundles, b)
    }

    /** Fetches one object by name and compares it; what was seen before goes with it. */
    method CheckNext(
        slot: nat, b: BundleId, sidecars: seq<Sidecar>, blobMetas: seq<BlobRow>, i: nat, ghost seen: seq<Checks.Reply>)
      returns (outcome: Checks.Outcome, ghost reply: Checks.Reply)
      requires Valid() && i == |seen| < |sidecars| == |blobMetas|
      requires Checks.CheckBlobs(env.coding.sha, sidecars, blobMetas, seen, i) == Checks.Pass
      modifies this, blobDao, bundleClient
      ensures Valid() && old(history) <= history && ByOther(Verifier, history, |old(history)|)
      ensures PlaceOf(Verifier, state) == PlaceOf(Verifier, old(state))
      ensures failures == if outcome.Failed? then old(failures) + 1 else old(failures)
      ensures Grows(old(bundleClient.objects), bundleClient.objects)
      ensures Reported(old(bundleClient.objects), bundleClient.objects, b, BlobKey(slot, i), reply)
      ensures outcome == Checks.CheckBlobs(env.coding.sha, sidecars, blobMetas, seen + [reply], i + 1)
    {
      hide Exec, Next;
      Pause(Verifier);
      var received := bundleClient.GetObject(b, BlobKey(slot, i));
      reply := received;
      outcome := Checks.CheckBlob(env.coding.sha, sidecars[i], blobMetas[i], received);
      Note(outcome.Failed?);
      Checks.SamePrefix(env.coding.sha, sidecars, blobMetas, seen, seen + [reply], i);
    }

    /** Compares what the bundle service returns for each blob with the chain; nothing is written. */
    method VerifyBlobsAtBlock(blockID: nat, b: BundleId, sidecars: seq<Sidecar>, blobMetas: seq<BlobRow>)
      returns (outcome: Checks.Outcome, ghost replies: seq<Checks.Reply>)
      requires Valid() && |sidecars| == |blobMetas|
      modifies this, blobDao, bundleClient
      ensures Valid() && old(history) <= history && old(failures) <= failures && ByOther(Verifier, history, |old(history)|)
      ensures PlaceOf(Verifier, state) == PlaceOf(Verifier, old(state))
      ensures |replies| == |sidecars|
      ensures outcome == Checks.CheckBlobs(env.coding.sha, sidecars, blobMetas, replies, |sidecars|)
      ensures outcome.Failed? ==> old(failures) < failures
      ensures Grows(old(bundleClient.objects), bundleClient.objects)
      ensures AllReported(old(bundleClient.objects), bundleClient.objects, b, blockID, replies)
    {
      hide Exec, Next, Checks.CheckBlob, Grows, Reported;
      ghost var sha := env.coding.sha;
      ghost var seen: seq<Checks.Reply> := [];
      GrowsFromItself(bundleClient.objects);
      for i := 0 to |sidecars|
        invariant Valid() && old(history) <= history && failures == old(failures) && ByOther(Verifier, history, |old(history)|)
        invariant PlaceOf(Verifier, state) == PlaceOf(Verifier, old(state))
        invariant |seen| == i && Checks.CheckBlobs(sha, sidecars, blobMetas, seen, i) == Checks.Pass
        invariant Grows(old(bundleClient.objects), bundleClient.objects)
        invariant AllReported(old(bundleClient.objects), bundleClient.objects, b, blockID, seen)
      {
        ghost var mid, reply, before := history, Checks.Missing, bundleClient.objects;
        outcome, reply := CheckNext(blockID, b, sidecars, blobMetas, i, seen);
        ByOtherJoins(Verifier, |old(history)|, mid, history);
        OneMoreReport(old(bundleClient.objects), before, bundleClient.objects, b, blockID, seen, reply);
        seen := seen + [reply];
        if outcome != Checks.Pass {
          replies := seen + seq(|sidecars| - i - 1, _ => Checks.Unavailable);
          NothingMoreReported(old(bundleClient.objects), bundleClient.objects, b, blockID, seen, replies);
          Checks.EarlierBlobDecides(sha, sidecars, blobMetas, seen, replies, |sidecars|);
          return;
        }
      }
      return Checks.Pass, seen;
    }

    /** Marks the block, and seals the bundle with its last block. */
    method FinishBlock(v: nat, b: BundleId) returns (ok: bool)
      requires Valid() && state.ver.VMarkOne? && state.ver.v == v && state.ver.b == b && !state.ver.e.BundleMatched?
      modifies this, blobDao, bundleClient
      ensures Valid() && old(history) <= history && old(failures) <= failures && state.ver.VIdle?
      ensures Grows(old(bundleClient.objects), bundleClient.objects)
      ensures ok ==> IsVerified(blobDao.db.blocks, v) && v in state.evidence && state.evidence[v] == old(state).ver.e
      ensures ok && v == b.hi ==> IsSealed(blobDao.db.bundles, b)
      ensures !ok ==> old(failures) < failures
    {
      hide Exec, Next;
      ok := MarkOneVerified(v, b);
      if ok && v == b.hi {
        ok := SealBundle(b);
      }
      if !ok {
        StopVerifying(b, false);
      }
    }

    /** The blobs of the block as the database has them, when there are as many as on the chain. */
    method ReadBlobs(v: nat, b: BundleId) returns (stage: Stage, blobMetas: seq<BlobRow>)
      requires Valid() && state.ver == VPicked(v, b) && detailed && v in blobDao.db.blocks
      requires blobDao.db.blocks[v].blobCount != 0
      modifies this
      ensures Valid() && old(history) <= history && old(failures) <= failures && blobDao.db == old(blobDao.db)
      ensures state.ver == match stage case Proceed => VPicked(v, b) case Replace => RDeprecate(v, b) case _ => VIdle
      ensures stage.Proceed? || stage.Replace? || stage.Failed?
      ensures stage.Proceed? ==> blobMetas == RowsAt(blobDao.db.blobs, v) && |blobMetas| == |env.sidecars(v)|
      ensures stage.Replace? ==> |RowsAt(blobDao.db.blobs, v)| != |env.sidecars(v)|
      ensures stage.Failed? ==> old(failures) < failures
    {
      hide Exec, Next, RowsAt;
      blobMetas := [];
      var failed := Call();
      if failed {
        StopVerifying(b, false);
        return Stage.Failed, [];
      }
      var metas := blobDao.GetBlobByBlockID(v);
      Note(metas.Err?);
      if metas.Err? {
        StopVerifying(b, false);
        return Stage.Failed, [];
      }
      if |metas.value| != |env.sidecars(v)| {
        CountOffIsAStep(env, state, v, b);
        Act(CountOff);
        return Replace, [];
      }
      return Proceed, metas.value;
    }

    /** The rows of a block agree with the chain, so its blobs pass or fail by what the bundle holds. */
    lemma {:induction false} RowsAreTheChains(v: nat)
      requires Valid() && v in blobDao.db.blocks
      ensures |RowsAt(blobDao.db.blobs, v)| == |env.sidecars(v)| && v < state.next
      ensures forall i :: 0 <= i < |env.sidecars(v)| ==> IsRow(env, BlobKey(v, i), RowsAt(blobDao.db.blobs, v)[i])
    {
      Holds();
      RowsAtDense(blobDao.db.blobs, v, |env.sidecars(v)|);
    }

    method CompareBlobs(v: nat, b: BundleId, blobMetas: seq<BlobRow>) returns (stage: Stage)
      requires Valid() && state.ver == VPicked(v, b) && detailed && v in blobDao.db.blocks
      requires blobDao.db.blocks[v].blobCount != 0
      requires blobMetas == RowsAt(blobDao.db.blobs, v) && |blobMetas| == |env.sidecars(v)|
      modifies this, blobDao, bundleClient
      ensures Valid() && old(history) <= history && old(failures) <= failures
      ensures Grows(old(bundleClient.objects), bundleClient.objects)
      ensures state.ver == if stage.Replace? then RDeprecate(v, b) else VIdle
      ensures stage.Marked? || stage.Replace? || stage.Failed?
      ensures stage.Marked? ==> BlockMarked(v, b) && HoldsBlobs(env, bundleClient.objects, b, v)
      ensures stage.Replace? ==> LacksBlob(env, old(bundleClient.objects), bundleClient.objects, b, v)
      ensures stage.Failed? ==> old(failures) < failures
    {
      hide Exec, Next, Checks.CheckBlobs, Grows, LacksBlob, HoldsBlobs, Reported, RowsAt, IsRow;
      RowsAreTheChains(v);
      var outcome, replies := VerifyBlobsAtBlock(v, b, env.sidecars(v), blobMetas);
      assert RowsAt(state.db.blobs, v) == blobMetas && HasBlobs(state, v) by {
        SyncThreadOnlyAdds(env, old(history), history);
        RowsStay(old(state).db.blobs, state.db.blobs, old(state).next, v);
      }
      CheckingIsAStep(env, state, v, b, replies, outcome);
      OutcomeByContent(env, old(bundleClient.objects), bundleClient.objects, b, v, blobMetas, replies);
      match outcome
      case Failed =>
        StopVerifying(b, false);
        return Stage.Failed;
      case Mismatch =>
        Act(CheckReplies(replies));
        return Replace;
      case Pass =>
        Act(CheckReplies(replies));
        ghost var held := bundleClient.objects;
        var ok := FinishBlock(v, b);
        StillHoldsBlobs(env, held, bundleClient.objects, b, v);
        GrowsOn(old(bundleClient.objects), held, bundleClient.objects);
        return if ok then Marked else Stage.Failed;
    }

    /** Block v is Verified on its own, and its bundle Sealed if it is the last block. */
    ghost predicate BlockMarked(v: nat, b: BundleId)
      reads this, blobDao
    {
      && IsVerified(blobDao.db.blocks, v) && v in state.evidence && OneByOne(state.evidence[v]) && state.evidence[v].b == b
      && (v == b.hi ==> IsSealed(blobDao.db.bundles, b))
    }

    /** The check of one block, blob by blob. */
    method CheckBlock(v: nat, b: BundleId, blobCount: nat) returns (stage: Stage)
      requires Valid() && state.ver == VPicked(v, b) && detailed && blobCount == |env.sidecars(v)|
      modifies this, blobDao, bundleClient
      ensures Valid() && old(history) <= history && old(failures) <= failures
      ensures Grows(old(bundleClient.objects), bundleClient.objects)
      ensures state.ver == if stage.Replace? then RDeprecate(v, b) else VIdle
      ensures stage.Marked? || stage.Replace? || stage.Failed?
      ensures stage.Marked? ==> BlockMarked(v, b) && HoldsBlobs(env, bundleClient.objects, b, v)
      ensures stage.Replace? ==> LacksBlob(env, old(bundleClient.objects), bundleClient.objects, b, v)
      ensures stage.Failed? ==> old(failures) < failures
    {
      hide Exec, Next, Grows, LacksBlob, RowsAt;
      assert v in blobDao.db.blocks && blobDao.db.blocks[v].blobCount == blobCount by { Holds(); }
      if blobCount == 0 {
        NoBlobsIsAStep(env, state, v, b);
        Act(NoBlobs);
        var ok := FinishBlock(v, b);
        return if ok then Marked else Stage.Failed;
      }
      RowsAreTheChains(v);
      var blobMetas;
      stage, blobMetas := ReadBlobs(v, b);
      if stage.Proceed? {
        stage := CompareBlobs(v, b, blobMetas);
      } else {
        GrowsFromItself(bundleClient.objects);
      }
    }

    method MakeScratchDir(v: nat, b: BundleId) returns (ok: bool)
      requires Valid() && state.ver == VPicked(v, b) && !detailed
      modifies this, blobDao, bundleClient
      ensures Grows(old(bundleClient.objects), bundleClient.objects)
      ensures Valid() && old(history) <= history && old(failures) <= failures
      ensures if ok then state.ver == VScratch(v, b, b.lo, 0) && Scratch(b) in dirs else state.ver.VIdle?
      ensures !ok ==> old(failures) < failures
    {
      hide Exec, Next;
      PauseKeepingBlocks();
      var failed := Call();
      if failed {
        StopVerifying(b, false);
        return false;
      }
      RebuildingIsAStep(env, state, v, b);
      dirs := Made(dirs, Scratch(b));
      Act(Rebuild);
      ok := true;
    }

    /** Writes the blobs of the whole range to the rebuild directory. */
    method RebuildDirectory(v: nat, b: BundleId) returns (ok: bool)
      requires Valid() && state.ver == VPicked(v, b) && !detailed
      modifies this, blobDao, bundleClient
      ensures Grows(old(bundleClient.objects), bundleClient.objects)
      ensures Valid() && old(history) <= history && old(failures) <= failures
      ensures if ok then state.ver == VCompare(v, b) && Scratch(b) in dirs else state.ver.VIdle?
      ensures !ok ==> old(failures) < failures
    {
      hide Exec, Next, Valid, Follows;
      RangeIsOrdered();
      ok := MakeScratchDir(v, b);
      if !ok {
        return;
      }
      var bi := b.lo;
      while bi <= b.hi
        invariant b.lo <= bi <= b.hi + 1
        invariant Valid() && old(history) <= history && old(failures) <= failures && Scratch(b) in dirs
        invariant Grows(old(bundleClient.objects), bundleClient.objects)
        invariant state.ver == if bi <= b.hi then VScratch(v, b, bi, 0) else VCompare(v, b)
      {
        ok := RebuildSlot(v, b, bi);
        if !ok {
          return;
        }
        bi := bi + 1;
      }
      ok := true;
    }

    method RebuildSlot(v: nat, b: BundleId, bi: nat) returns (ok: bool)
      requires Valid() && state.ver == VScratch(v, b, bi, 0) && Scratch(b) in dirs && bi <= b.hi
      modifies this, blobDao, bundleClient
      ensures Grows(old(bundleClient.objects), bundleClient.objects)
      ensures Valid() && old(history) <= history && old(failures) <= failures
      ensures ok ==> Scratch(b) in dirs && state.ver == if bi < b.hi then VScratch(v, b, bi + 1, 0) else VCompare(v, b)
      ensures !ok ==> state.ver.VIdle? && old(failures) < failures
    {
      hide Exec, Next;
      var failed := Call();
      if failed {
        StopVerifying(b, true);
        return false;
      }
      ghost var written;
      ok, written := WriteBlobToFile(Verifier, bi, Scratch(b), env.sidecars(bi));
      if !ok {
        StopVerifying(b, true);
        return;
      }
      RebuiltIsAStep(env, state, v, b, bi);
      Act(FilesDone(Verifier));
    }

    /** Packs the rebuilt directory, computes its checksums and compares them with those on the chain. */
    method CompareWithChain(v: nat, b: BundleId) returns (stage: Stage)
      requires Valid() && state.ver == VCompare(v, b) && Scratch(b) in dirs
      modifies this, blobDao, bundleClient
      ensures Grows(old(bundleClient.objects), bundleClient.objects)
      ensures Valid() && old(history) <= history && old(failures) <= failures
      ensures match stage
        case Proceed => state.ver == VMarkRange(v, b, BundleMatched(b, chainClient.checksums(b)))
        case Replace => state.ver == RDeprecate(v, b)
        case _ => state.ver.VIdle?
      ensures stage.Proceed? || stage.Replace? || stage.Failed?
      ensures stage.Proceed? || stage.Replace? ==> (stage.Proceed? <==> RecordedMatches(env, b, chainClient.checksums(b)))
      ensures stage.Failed? ==> old(failures) < failures
    {
      hide Exec, Next, Expected, Checksum.HashList, Checks.ChecksumsMatch, Grows;
      PauseKeepingBlocks();
      RebuiltIsExact();
      var expected := ExpectedChecksums(dirs[Scratch(b)]);
      var meta: Option<seq<string>> := None;
      if expected.Some? {
        var found := chainClient.GetObjectMeta(b);
        Note(found.None?);
        meta := if found.Some? then Some(found.value.checksums) else None;
      }
      if expected.None? || meta.None? {
        StopVerifying(b, true);
        return Stage.Failed;
      }
      stage := Conclude(v, b, expected.value, meta.value);
    }

    /** Compares the checksums; the rebuild directory goes when they differ. */
    method Conclude(v: nat, b: BundleId, expected: seq<bytes>, onChain: seq<string>) returns (stage: Stage)
      requires Valid() && state.ver == VCompare(v, b) && Scratch(b) in dirs && dirs[Scratch(b)] != map[]
      requires Checksum.HashList(env.coding, env.pack(dirs[Scratch(b)]), env.segmentSize) == Some(expected)
      modifies this
      ensures Valid() && old(history) <= history && failures == old(failures)
      ensures if Checks.ChecksumsMatch(env.base64, expected, onChain)
        then stage.Proceed? && state.ver == VMarkRange(v, b, BundleMatched(b, onChain))
        else stage.Replace? && state.ver == RDeprecate(v, b)
    {
      hide Exec, Next, Checksum.HashList, Checks.ChecksumsMatch;
      var same := Checks.CompareChecksums(env.base64, expected, onChain);
      ComparingIsAStep(env, state, v, b, onChain, expected);
      Act(Compare(onChain));
      if !same {
        dirs := dirs - {Scratch(b)};
        return Replace;
      }
      return Proceed;
    }

    /** Packs a directory, which must not be empty, and computes its checksums. */
    method ExpectedChecksums(dir: Dir) returns (r: Option<seq<bytes>>)
      requires env.WellFormed()
      modifies this`failures
      ensures r.Some? ==> dir != map[] && Checksum.HashList(env.coding, env.pack(dir), env.segmentSize) == r
      ensures failures == if r.Some? then old(failures) else old(failures) + 1
    {
      var failed := Call();
      if failed {
        return None;
      }
      if dir == map[] {
        Note(true);
        return None;
      }
      var reader := new Checksum.Reader(env.pack(dir));
      var computed := Checksum.ComputeIntegrityHashSerial(reader, env.segmentSize, env.coding);
      Note(!computed.Hashed?);
      return if computed.Hashed? then Some(computed.hashList) else None;
    }

    lemma {:induction false} RebuiltIsExact()
      requires Valid() && state.ver.VCompare?
      ensures Scratch(state.ver.b) in dirs && dirs[Scratch(state.ver.b)] == Expected(env, state.ver.b.lo, state.ver.b.hi)
    {
      Holds();
      VerifySteps.RebuildIsExact(env, state);
    }

    /** The check of a whole bundle against the checksums the chain recorded for it. */
    method VerifyBundleIntegrity(v: nat, b: BundleId) returns (stage: Stage)
      requires Valid() && state.ver == VPicked(v, b) && !detailed
      modifies this, blobDao, bundleClient
      ensures Grows(old(bundleClient.objects), bundleClient.objects)
      ensures Valid() && old(history) <= history && old(failures) <= failures
      ensures stage.Marked? || stage.Replace? || stage.Failed?
      ensures state.ver == if stage.Replace? then RDeprecate(v, b) else VIdle
      ensures stage.Marked? ==> BundleMarked(v, b, old(blobDao.db).blocks)
      ensures stage.Marked? || stage.Replace? ==> (stage.Marked? <==> RecordedMatches(env, b, chainClient.checksums(b)))
      ensures stage.Failed? ==> old(failures) < failures
    {
      hide Exec, Next, RecordedMatches;
      var ok := RebuildDirectory(v, b);
      if !ok {
        return Stage.Failed;
      }
      stage := CompareWithChain(v, b);
      SlotsStay(env, old(history), history);
      if stage.Proceed? {
        ok := MarkAndSeal(v, b, true);
        return if ok then Marked else Stage.Failed;
      }
    }

    /** Block v is Verified with its whole range by the checksums on the chain, and the bundle is Sealed. */
    ghost predicate BundleMarked(v: nat, b: BundleId, before: BlockTable)
      reads this, blobDao
    {
      && IsVerified(blobDao.db.blocks, v) && v in state.evidence
      && state.evidence[v] == BundleMatched(b, chainClient.checksums(b))
      && RangeVerified(before, blobDao.db.blocks, b) && IsSealed(blobDao.db.bundles, b)
    }

    /** Uploads the range of the bundle again under a new name; on success every slot of the range that has a block on the
        chain names the new bundle, which is recorded as uploaded. */
    method ReUploadBundle(v: nat, b: BundleId) returns (ok: bool, nb: BundleId)
      requires Valid() && state.ver == RDeprecate(v, b)
      modifies this, blobDao, bundleClient
      ensures Grows(old(bundleClient.objects), bundleClient.objects)
      ensures Valid() && old(history) <= history && old(failures) <= failures && state.ver.VIdle?
      ensures ok ==>
        && Replaces(nb, b) && nb in blobDao.db.bundles && blobDao.db.bundles[nb].status.Finalized?
        && Moved(env, blobDao.db.blocks, b, nb, b.hi + 1)
      ensures ok ==> TriedUpload(Verifier, history, |old(history)|)
      ensures ok && bundleClient.truthful ==> Honesty.Kept(env, state, nb)
      ensures !ok ==> old(failures) < failures
    {
      hide Exec, Next, Moved, Valid, Follows, Grows, TriedUpload, Honesty.Kept;
      ok, nb := StartReplacement(v, b);
      if !ok {
        return;
      }
      ghost var objects := bundleClient.objects;
      var bi := b.lo;
      while bi <= b.hi
        invariant b.lo <= bi <= b.hi + 1
        invariant Valid() && old(history) <= history && old(failures) <= failures && Replaces(nb, b) && Local(nb) in dirs
        invariant Grows(old(bundleClient.objects), bundleClient.objects)
        invariant state.ver == if bi <= b.hi then RFiles(v, b, nb, bi, 0) else RUpload(v, b, nb)
      {
        objects := bundleClient.objects;
        ok := MoveSlot(v, b, nb, bi);
        GrowsOn(old(bundleClient.objects), objects, bundleClient.objects);
        if !ok {
          return;
        }
        bi := bi + 1;
      }
      ghost var mid := history;
      objects := bundleClient.objects;
      ok := FinalizeBundle(Verifier, nb);
      GrowsOn(old(bundleClient.objects), objects, bundleClient.objects);
      TriedUploadLater(Verifier, |old(history)|, |mid|, history);
    }

    /** Deprecates the old bundle and makes directory and row of the new one. */
    method StartReplacement(v: nat, b: BundleId) returns (ok: bool, nb: BundleId)
      requires Valid() && state.ver == RDeprecate(v, b)
      modifies this, blobDao, bundleClient
      ensures Grows(old(bundleClient.objects), bundleClient.objects)
      ensures Valid() && old(history) <= history && old(failures) <= failures
      ensures if ok then
          && state.ver == RFiles(v, b, nb, b.lo, 0) && nb.stamp.Some? && nb == b.(stamp := nb.stamp)
          && Local(nb) in dirs && b.lo <= b.hi
        else state.ver.VIdle? && old(failures) < failures
    {
      hide Exec, Next, Valid, Follows;
      RangeIsOrdered();
      ok, nb := DeprecateOld(v, b);
      if ok {
        ok := MakeNewDirectory(v, b, nb);
      }
      if ok {
        ok := InsertNewRow(v, b, nb);
      }
    }

    method DeprecateOld(v: nat, b: BundleId) returns (ok: bool, nb: BundleId)
      requires Valid() && state.ver == RDeprecate(v, b)
      modifies this, blobDao, bundleClient
      ensures Grows(old(bundleClient.objects), bundleClient.objects)
      ensures Valid() && old(history) <= history && old(failures) <= failures
      ensures nb.stamp.Some? && nb == b.(stamp := nb.stamp)
      ensures state.ver == if ok then RDir(v, b, nb) else VIdle
      ensures !ok ==> old(failures) < failures
    {
      hide Exec, Next;
      var now: int := *;
      nb := b.(stamp := Some(now));
      Pause(Verifier);
      DeprecatingIsAStep(env, state, v, b, now);
      ok := blobDao.UpdateBundleStatus(b, BundleStatus.Deprecated);
      Note(!ok);
      if ok {
        Act(Deprecate(now));
      } else {
        StopVerifying(b, false);
      }
    }

    method MakeNewDirectory(v: nat, b: BundleId, nb: BundleId) returns (ok: bool)
      requires Valid() && state.ver == RDir(v, b, nb)
      modifies this, blobDao, bundleClient
      ensures Grows(old(bundleClient.objects), bundleClient.objects)
      ensures Valid() && old(history) <= history && old(failures) <= failures
      ensures if ok then state.ver == RRow(v, b, nb) && Local(nb) in dirs else state.ver.VIdle? && old(failures) < failures
    {
      hide Exec, Next;
      Pause(Verifier);
      var failed := Call();
      if failed {
        StopVerifying(b, false);
        return false;
      }
      MakingDirIsAStep(env, state, v, b, nb);
      dirs := Made(dirs, Local(nb));
      Act(MakeNewDir);
      ok := true;
    }

    method InsertNewRow(v: nat, b: BundleId, nb: BundleId) returns (ok: bool)
      requires Valid() && state.ver == RRow(v, b, nb) && nb.stamp.Some? && Local(nb) in dirs
      modifies this, blobDao, bundleClient
      ensures Grows(old(bundleClient.objects), bundleClient.objects)
      ensures Valid() && old(history) <= history && old(failures) <= failures
      ensures if ok then state.ver == RFiles(v, b, nb, b.lo, 0) && Local(nb) in dirs
        else state.ver.VIdle? && old(failures) < failures
    {
      hide Exec, Next;
      Pause(Verifier);
      var now: int := *;
      InsertingIsAStep(env, state, v, b, nb, now);
      ok := blobDao.CreateBundle(nb, true, now);
      Note(!ok);
      if ok {
        Act(MakeNewRow(now));
      } else {
        StopVerifying(b, false);
      }
    }

    /** Writes the files of one slot to the new directory. */
    method WriteMovedFiles(v: nat, b: BundleId, nb: BundleId, bi: nat) returns (ok: bool)
      requires Valid() && state.ver == RFiles(v, b, nb, bi, 0) && nb.stamp.Some? && Local(nb) in dirs
      modifies this, blobDao, bundleClient
      ensures Grows(old(bundleClient.objects), bundleClient.objects)
      ensures Valid() && old(history) <= history && old(failures) <= failures
      ensures if ok then state.ver == RFiles(v, b, nb, bi, |env.sidecars(bi)|) && Local(nb) in dirs
        else state.ver.VIdle? && old(failures) < failures
    {
      hide Exec, Next;
      var failed := Call();
      if failed {
        StopVerifying(b, false);
        return false;
      }
      ghost var written;
      ok, written := WriteBlobToFile(Verifier, bi, Local(nb), env.sidecars(bi));
      if ok && env.eth {
        failed := Call();
        ok := !failed;
      }
      if !ok {
        StopVerifying(b, false);
      }
    }

    /** Writes the files of one slot and moves its rows to the new bundle, unless the slot has no beacon block. */
    method MoveSlot(v: nat, b: BundleId, nb: BundleId, bi: nat) returns (ok: bool)
      requires Valid() && state.ver == RFiles(v, b, nb, bi, 0) && nb.stamp.Some? && Local(nb) in dirs && bi <= b.hi
      modifies this, blobDao, bundleClient
      ensures Grows(old(bundleClient.objects), bundleClient.objects)
      ensures Valid() && old(history) <= history && old(failures) <= failures
      ensures ok ==> Local(nb) in dirs && state.ver == if bi < b.hi then RFiles(v, b, nb, bi + 1, 0) else RUpload(v, b, nb)
      ensures !ok ==> state.ver.VIdle? && old(failures) < failures
    {
      hide Exec, Next;
      ok := WriteMovedFiles(v, b, nb, bi);
      if ok {
        FilesDoneIsAStep(env, state, v, b, nb, bi);
        Act(FilesDone(Verifier));
        if !env.forked(bi) {
          ok := MoveRows(v, b, nb, bi);
        }
      }
    }

    /** What was read for the slot is still what is stored when it is saved. */
    method PauseBeforeMove(bi: nat, nb: BundleId, block: BlockRow, blobs: seq<BlobRow>)
      requires Valid() && bi in blobDao.db.blocks && block == BlockOf(env, bi, nb).(id := blobDao.db.blocks[bi].id)
      requires Rows(env, bi).Some? && blobs == WithIds(Rows(env, bi).value, RowsAt(blobDao.db.blobs, bi))
      requires nb.stamp.Some? && Local(nb) in dirs
      modifies this, blobDao, bundleClient
      ensures Grows(old(bundleClient.objects), bundleClient.objects)
      ensures Valid() && old(history) <= history && failures == old(failures)
      ensures PlaceOf(Verifier, state) == PlaceOf(Verifier, old(state)) && Local(nb) in dirs
      ensures bi in blobDao.db.blocks && block == BlockOf(env, bi, nb).(id := blobDao.db.blocks[bi].id)
      ensures blobs == WithIds(Rows(env, bi).value, RowsAt(blobDao.db.blobs, bi))
    {
      assert bi < state.next by { Holds(); }
      Pause(Verifier);
      assert bi in state.db.blocks && state.db.blocks[bi] == old(state).db.blocks[bi]
        && RowsAt(state.db.blobs, bi) == RowsAt(old(state).db.blobs, bi) by {
        SyncThreadOnlyAdds(env, old(history), history);
        RowsStay(old(state).db.blobs, state.db.blobs, old(state).next, bi);
      }
    }

    /** Saves the rows of the slot under the new bundle, with the ids they had. */
    method MoveRows(v: nat, b: BundleId, nb: BundleId, bi: nat) returns (ok: bool)
      requires Valid() && state.ver == RSave(v, b, nb, bi) && nb.stamp.Some? && Local(nb) in dirs
      modifies this, blobDao, bundleClient
      ensures Grows(old(bundleClient.objects), bundleClient.objects)
      ensures Valid() && old(history) <= history && old(failures) <= failures
      ensures ok ==> Local(nb) in dirs && state.ver == if bi < b.hi then RFiles(v, b, nb, bi + 1, 0) else RUpload(v, b, nb)
      ensures !ok ==> state.ver.VIdle? && old(failures) < failures
    {
      hide Exec, Next, SaveBlockAndBlob, WithIds, RowsAt, BlockOf, Rows, TornBySlot, Grows;
      GrowsFromItself(bundleClient.objects);
      var block, blobs;
      ok, block, blobs := ReadMovedRows(bi, nb);
      if !ok {
        StopVerifying(b, false);
        return;
      }
      PauseBeforeMove(bi, nb, block, blobs);
      ok := SaveMovedRows(v, b, nb, bi, block, blobs);
    }

    method SaveMovedRows(v: nat, b: BundleId, nb: BundleId, bi: nat, block: BlockRow, blobs: seq<BlobRow>) returns (ok: bool)
      requires Valid() && state.ver == RSave(v, b, nb, bi) && Local(nb) in dirs
      requires bi in blobDao.db.blocks && block == BlockOf(env, bi, nb).(id := blobDao.db.blocks[bi].id)
      requires Rows(env, bi).Some? && blobs == WithIds(Rows(env, bi).value, RowsAt(blobDao.db.blobs, bi))
      modifies this, blobDao
      ensures Valid() && old(history) <= history && old(failures) <= failures
      ensures ok ==> Local(nb) in dirs && state.ver == if bi < b.hi then RFiles(v, b, nb, bi + 1, 0) else RUpload(v, b, nb)
      ensures !ok ==> state.ver.VIdle? && old(failures) < failures
    {
      hide Exec, Next, SaveBlockAndBlob, WithIds, RowsAt, BlockOf, Rows, TornBySlot;
      MovingIsAStep(env, state, v, b, nb, bi);
      ok := blobDao.SaveBlockAndBlob(block, blobs);
      Note(!ok);
      if ok {
        Act(SaveMoved);
      } else {
        StopVerifying(b, false);
      }
    }

    /** The rows to save: as on the chain, with the ids stored for the slot. */
    method ReadMovedRows(bi: nat, nb: BundleId) returns (ok: bool, block: BlockRow, blobs: seq<BlobRow>)
      requires env.WellFormed()
      modifies this`failures
      ensures old(failures) <= failures && (!ok ==> old(failures) < failures)
      ensures ok ==> bi in blobDao.db.blocks && block == BlockOf(env, bi, nb).(id := blobDao.db.blocks[bi].id)
      ensures ok ==> Rows(env, bi).Some? && blobs == WithIds(Rows(env, bi).value, RowsAt(blobDao.db.blobs, bi))
    {
      block, blobs := ZERO_BLOCK, [];
      var blockMeta := blobDao.GetBlock(bi);
      Note(blockMeta.Err?);
      if blockMeta.Err? {
        return false, block, blobs;
      }
      var blobMetas := blobDao.GetBlobByBlockID(bi);
      Note(blobMetas.Err?);
      if blobMetas.Err? {
        return false, block, blobs;
      }
      var rows := ToBlockAndBlobs(bi, nb);
      if rows.None? {
        return false, block, blobs;
      }
      block := rows.value.0.(id := blockMeta.value.id);
      blobs := rows.value.1;
      for i := 0 to |blobMetas.value|
        invariant |blobs| == |rows.value.1|
        invariant forall j :: 0 <= j < |blobs| ==>
          blobs[j] == if j < i then rows.value.1[j].(id := blobMetas.value[j].id) else rows.value.1[j]
      {
        if i < |blobs| {
          blobs := blobs[i := blobs[i].(id := blobMetas.value[i].id)];
        }
      }
      ok := true;
    }

    predicate Overdue(created: int, now: int) {
      created > 0 && now - created > env.threshold
    }

    /** Why bundle b is uploaded again: it was not sealed in time; or, for a check of block v, it lacks a blob or holds a
        different one; or, for a check of the whole bundle, the recorded checksums are not those of the range. */
    ghost predicate MayReplace(
        v: nat, b: BundleId, asked: Option<Standing>, created: int, now: int, before: Objects, after: Objects)
    {
      if asked == Some(Waits) then Overdue(created, now)
      else
        && (asked.None? || asked.value.Arrived?)
        && if detailed then LacksBlob(env, before, after, b, v)
           else !RecordedMatches(env, b, chainClient.checksums(b))
    }

    /** One round of the verify loop on the earliest Processed block v and the bundle b named on it. `asked` is what the bundle
        service answered about b, if it was asked. Marked: the block, or the whole range, is Verified, and the bundle Sealed
        with it. Replace: the check failed, or the bundle was not sealed in time, and it was uploaded again. Waiting: nothing
        was due. Failed: a call reported an error, or the service misses a bundle for which blobs are recorded. */
    method Verify()
      returns (stage: Stage, v: nat, b: BundleId, nb: BundleId, ghost asked: Option<Standing>, ghost now: int)
      requires Valid() && state.ver.VIdle?
      modifies this, blobDao, bundleClient
      ensures Valid() && old(history) <= history && old(failures) <= failures && state.ver.VIdle? && !stage.Proceed?
      ensures stage.Marked? || stage.Replace? ==>
        && IsEarliestUnverified(old(blobDao.db).blocks, v) && b == old(blobDao.db).blocks[v].bundle
        && b in old(blobDao.db).bundles && (asked.Some? <==> v == b.lo || !detailed)
      ensures asked.Some? ==>
        Stands(bundleClient.truthful, chainClient.seals, asked.value, b, old(bundleClient.bundles), bundleClient.bundles)
      ensures stage.Marked? ==>
        if asked == Some(Nowhere) then EmptyMarked(v, b, old(blobDao.db).blocks)
        else if detailed then BlockMarked(v, b) && HoldsBlobs(env, bundleClient.objects, b, v)
        else BundleMarked(v, b, old(blobDao.db).blocks) && RecordedMatches(env, b, chainClient.checksums(b))
      ensures stage.Replace? ==>
        && Replaces(nb, b) && nb in blobDao.db.bundles && blobDao.db.bundles[nb].status.Finalized?
        && Moved(env, blobDao.db.blocks, b, nb, b.hi + 1) && (bundleClient.truthful ==> Honesty.Kept(env, state, nb))
        && MayReplace(v, b, asked, old(blobDao.db).bundles[b].created, now, old(bundleClient.objects), bundleClient.objects)
      ensures stage.Waiting? ==>
        || (forall n :: n in old(blobDao.db).blocks ==> !old(blobDao.db).blocks[n].status.Processed?)
        || (asked.None? && b in blobDao.db.bundles && blobDao.db.bundles[b].status.Finalizing?)
        || (asked == Some(Waits) && b in old(blobDao.db).bundles && !Overdue(old(blobDao.db).bundles[b].created, now))
      ensures stage.Failed? ==>
        old(failures) < failures || (asked == Some(Nowhere) && KeysBetween(blobDao.db.blobs, b.lo, b.hi) != {})
    {
      hide Exec, Next, Valid, Follows, Moved, KeysBetween, IsEarliestUnverified, MayReplace, Overdue, BlocksKept;
      hide EmptyMarked, BlockMarked, BundleMarked, HoldsBlobs, RecordedMatches, Honesty.Kept;
      nb, asked, now := NOWHERE, None, 0;
      var block;
      stage, block := PickBlock();
      v, b := block.slot, block.bundle;
      if stage.Over() {
        return;
      }
      var bundle;
      stage, bundle := OpenBundle(v, b);
      if stage.Over() {
        return;
      }
      BundlesStay();
      stage, asked, now := CheckOpened(v, b, bundle.created, block.blobCount, old(blobDao.db).blocks, old(bundleClient.objects));
      label Checked:
      if stage.Replace? {
        var ok;
        ghost var objects := bundleClient.objects;
        ok, nb := ReUploadBundle(v, b);
        BundlesStay@Checked();
        StillMayReplace(v, b, asked, bundle.created, now, old(bundleClient.objects), objects);
        if !ok {
          stage := Stage.Failed;
        }
      }
    }

    lemma {:induction false} StillMayReplace(
        v: nat, b: BundleId, asked: Option<Standing>, created: int, now: int, before: Objects, objects: Objects)
      requires Grows(objects, bundleClient.objects)
      ensures MayReplace(v, b, asked, created, now, before, objects) ==>
        MayReplace(v, b, asked, created, now, before, bundleClient.objects)
    {
      hide LacksBlob;
      GrowsFromItself(before);
      LacksBlobStill(env, before, before, objects, bundleClient.objects, b, v);
    }

    /** The checks of a block whose bundle was opened. */
    method CheckOpened(
        v: nat, b: BundleId, created: int, blobCount: nat, ghost before: BlockTable, ghost objects: Objects)
      returns (stage: Stage, ghost asked: Option<Standing>, ghost now: int)
      requires Valid() && state.ver == VPicked(v, b) && blobCount == |env.sidecars(v)|
      requires b in blobDao.db.bundles && created == blobDao.db.bundles[b].created
      requires BlocksKept(before, blobDao.db.blocks) && Grows(objects, bundleClient.objects)
      modifies this, blobDao, bundleClient
      ensures Valid() && old(history) <= history && old(failures) <= failures
      ensures state.ver == if stage.Replace? then RDeprecate(v, b) else VIdle
      ensures !stage.Proceed? && (asked.Some? <==> v == b.lo || !detailed)
      ensures asked.Some? ==>
        Stands(bundleClient.truthful, chainClient.seals, asked.value, b, old(bundleClient.bundles), bundleClient.bundles)
      ensures Grows(objects, bundleClient.objects)
      ensures stage.Marked? ==>
        if asked == Some(Nowhere) then EmptyMarked(v, b, before)
        else if detailed then BlockMarked(v, b) && HoldsBlobs(env, bundleClient.objects, b, v)
        else BundleMarked(v, b, before) && RecordedMatches(env, b, chainClient.checksums(b))
      ensures stage.Replace? ==> MayReplace(v, b, asked, created, now, objects, bundleClient.objects)
      ensures stage.Waiting? ==> asked == Some(Waits) && !Overdue(created, now)
      ensures stage.Failed? ==>
        old(failures) < failures || (asked == Some(Nowhere) && KeysBetween(blobDao.db.blobs, b.lo, b.hi) != {})
    {
      hide Exec, Next, Valid, Follows, KeysBetween, LacksBlob, HoldsBlobs, RecordedMatches, Grows;
      stage, asked, now := Proceed, None, 0;
      ghost var mid, held := blobDao.db.blocks, bundleClient.objects;
      if v == b.lo || !detailed {
        ghost var info;
        stage, info, now := CheckSealed(v, b, created);
        asked := Some(info);
        GrowsOn(objects, held, bundleClient.objects);
      }
      label Asked:
      if stage.Proceed? {
        held := bundleClient.objects;
        if !detailed {
          stage := VerifyBundleIntegrity(v, b);
        } else {
          stage := CheckBlock(v, b, blobCount);
        }
        BundlesStay@Asked();
        GrowsOn(objects, held, bundleClient.objects);
        GrowsFromItself(bundleClient.objects);
        LacksBlobStill(env, objects, held, bundleClient.objects, bundleClient.objects, b, v);
      }
    }
  }
}
