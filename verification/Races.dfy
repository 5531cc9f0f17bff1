/** Runs that show where stronger guarantees would fail. They use bundles of two slots, the first without blobs. */
module Races {
  import opened Types
  import opened Dao
  import opened Protocol
  import opened Invariant
  import opened Safety
  import SyncSteps
  import Theorems
  import Threads
  import Progress

  /** The first slot has no blobs. */
  ghost predicate FirstEmpty(env: Env) {
    env.WellFormed() && env.start + 4 < UINT64_LIMIT && env.sidecars(env.start) == []
  }

  /** The first slot has no blobs, the second has one. */
  ghost predicate TwoSlots(env: Env) {
    FirstEmpty(env) && |env.sidecars(env.start + 1)| == 1
  }

  function Pair(env: Env): BundleId {
    BundleId(env.start, env.start + 1, None)
  }

  function PairRow(status: BundleStatus): BundleRow {
    BundleRow(1, status, false, 0)
  }

  /** Directory and row of the first bundle, of k slots, made; no slot saved. */
  function Opened(env: Env, k: nat): State {
    var b := FirstBundle(env.start, k);
    State(Tables(map[], map[], map[b := PairRow(Finalizing)], 1, 1, 2), map[Local(b) := map[]], true, b, k, true,
      SFiles(env.start, 0), VIdle, env.start, map[], {}, env.start, [b], false, EMPTY)
  }

  lemma {:induction false} ReachOpened(env: Env, k: nat)
    requires env.WellFormed() && 0 < k && env.start + k < UINT64_LIMIT
    ensures Reachable(env, Opened(env, k))
  {
    var b := FirstBundle(env.start, k);
    var s0 := Init(env);
    assert Exec(env, []) == Some(s0);
    var s1 := s0.(up := true, detail := b, interval := k, detailed := true, tiles := [b]);
    assert LatestPending(s0.db.bundles) == None by {
      assert forall c :: !IsPending(s0.db.bundles, c);
    }
    assert NextBlockNumOrSlot(s0.db.blocks, env.start) == env.start;
    assert Next(env, s0, Restart(k, true)) == Some(s1);
    OneMoreStep(env, s0, Restart(k, true), s1);
    var s2 := s1.(sync := SDir(env.start));
    assert Next(env, s1, Begin) == Some(s2);
    OneMoreStep(env, s1, Begin, s2);
    FromDir(env, k, s2);
  }

  lemma {:induction false} FromDir(env: Env, k: nat, s2: State)
    requires env.WellFormed() && Reachable(env, s2)
    requires s2 == Opened(env, k).(db := EMPTY, dirs := map[], sync := SDir(env.start))
    ensures Reachable(env, Opened(env, k))
  {
    var s3 := s2.(dirs := map[Local(FirstBundle(env.start, k)) := map[]], sync := SRow(env.start));
    assert Next(env, s2, MakeDir) == Some(s3);
    OneMoreStep(env, s2, MakeDir, s3);
    assert Next(env, s3, MakeRow(0)) == Some(Opened(env, k));
    OneMoreStep(env, s3, MakeRow(0), Opened(env, k));
  }

  function Started(env: Env): State {
    Opened(env, 2)
  }

  function FirstRow(env: Env): BlockRow {
    BlockOf(env, env.start, Pair(env)).(id := 1)
  }

  /** The first slot saved, nothing done for the second. */
  function HalfSaved(env: Env): State {
    var s := Started(env);
    s.(db := s.db.(blocks := map[env.start := FirstRow(env)], blockSeq := 2), sync := SIdle, next := env.start + 1)
  }

  lemma {:induction false} ReachHalfSaved(env: Env)
    requires FirstEmpty(env)
    ensures Reachable(env, HalfSaved(env))
  {
    ReachOpened(env, 2);
    var s := Started(env);
    var t := s.(sync := SSave(env.start));
    assert Next(env, s, FilesDone(Syncer)) == Some(t);
    OneMoreStep(env, s, FilesDone(Syncer), t);
    FirstSaved(env, t);
    OneMoreStep(env, t, Save, HalfSaved(env));
  }

  lemma {:induction false} FirstRowStored(env: Env)
    ensures SaveBlockAndBlob(Started(env).db, BlockOf(env, env.start, Pair(env)), []) == HalfSaved(env).db
  {
    assert map[env.start := FirstRow(env)] == map[][env.start := FirstRow(env)];
  }

  lemma {:induction false} FirstSaved(env: Env, t: State)
    requires FirstEmpty(env) && t == Started(env).(sync := SSave(env.start))
    ensures Next(env, t, Save) == Some(HalfSaved(env))
  {
    hide SaveBlockAndBlob, BlockOf;
    FirstRowStored(env);
    assert Rows(env, env.start) == Some([]);
  }

  /** The blob of the second slot written and uploaded, the bundle marked Finalized, the second slot not saved. */
  ghost function Uploading(env: Env): State
    requires TwoSlots(env)
  {
    var s, b := HalfSaved(env), Pair(env);
    var content: Dir := map[BlobKey(env.start + 1, 0) := env.sidecars(env.start + 1)[0].blob];
    s.(db := s.db.(bundles := map[b := PairRow(Finalized)]), dirs := map[], sync := SSave(env.start + 1),
       uploads := {Upload(b, content)})
  }

  lemma {:induction false} SecondSlotIsNext(env: Env)
    requires FirstEmpty(env)
    ensures NextBlockNumOrSlot(HalfSaved(env).db.blocks, env.start) == env.start + 1
  {
    assert Slots(env, env.start + 1, HalfSaved(env).db.blocks);
    SyncSteps.NextIsComputed(env, env.start + 1, HalfSaved(env).db.blocks);
  }

  lemma {:induction false} ReachUploading(env: Env)
    requires TwoSlots(env)
    ensures Reachable(env, Uploading(env))
  {
    ReachHalfSaved(env);
    SecondSlotIsNext(env);
    var n, b := env.start + 1, Pair(env);
    var content: Dir := map[BlobKey(n, 0) := env.sidecars(n)[0].blob];
    var s0 := HalfSaved(env);
    var s1 := s0.(sync := SFiles(n, 0));
    assert Next(env, s0, Begin) == Some(s1);
    OneMoreStep(env, s0, Begin, s1);
    var s2 := s1.(dirs := map[Local(b) := content], sync := SFiles(n, 1));
    assert Written(env, s1.dirs, Local(b), n, 0) == s2.dirs;
    assert Next(env, s1, WriteFile(Syncer)) == Some(s2);
    OneMoreStep(env, s1, WriteFile(Syncer), s2);
    FromFiles(env, s2, content);
  }

  lemma {:induction false} FromFiles(env: Env, s2: State, content: Dir)
    requires TwoSlots(env) && Reachable(env, s2)
    requires content == map[BlobKey(env.start + 1, 0) := env.sidecars(env.start + 1)[0].blob]
    requires s2 == HalfSaved(env).(dirs := map[Local(Pair(env)) := content], sync := SFiles(env.start + 1, 1))
    ensures Reachable(env, Uploading(env))
  {
    hide SaveBlockAndBlob, BlockOf;
    var s3 := s2.(sync := SUpload(env.start + 1));
    assert Next(env, s2, FilesDone(Syncer)) == Some(s3);
    OneMoreStep(env, s2, FilesDone(Syncer), s3);
    FromCollected(env, s3, content);
  }

  lemma {:induction false} FromCollected(env: Env, s3: State, content: Dir)
    requires TwoSlots(env) && Reachable(env, s3)
    requires content == map[BlobKey(env.start + 1, 0) := env.sidecars(env.start + 1)[0].blob]
    requires s3 == HalfSaved(env).(dirs := map[Local(Pair(env)) := content], sync := SUpload(env.start + 1))
    ensures Reachable(env, Uploading(env))
  {
    hide SaveBlockAndBlob, BlockOf;
    var n, b := env.start + 1, Pair(env);
    var s4 := s3.(uploads := {Upload(b, content)}, sync := SRemove(n));
    assert BlobKey(n, 0) in content;
    assert s3.uploads + {Upload(b, content)} == s4.uploads;
    assert Next(env, s3, UploadDir(Syncer, true)) == Some(s4);
    OneMoreStep(env, s3, UploadDir(Syncer, true), s4);
    FromUpload(env, s4);
  }

  lemma {:induction false} FromUpload(env: Env, s4: State)
    requires TwoSlots(env) && Reachable(env, s4)
    requires s4 == Uploading(env).(db := HalfSaved(env).db, dirs := s4.dirs, sync := SRemove(env.start + 1))
    requires s4.dirs.Keys == {Local(Pair(env))}
    ensures Reachable(env, Uploading(env))
  {
    var n, b := env.start + 1, Pair(env);
    var s5 := s4.(dirs := map[], sync := SMark(n));
    assert s4.dirs - {Local(b)} == map[];
    assert Next(env, s4, RemoveDir(Syncer)) == Some(s5);
    OneMoreStep(env, s4, RemoveDir(Syncer), s5);
    FromRemoved(env, s5);
  }

  lemma {:induction false} FromRemoved(env: Env, s5: State)
    requires TwoSlots(env) && Reachable(env, s5)
    requires s5 == Uploading(env).(db := HalfSaved(env).db, sync := SMark(env.start + 1))
    ensures Reachable(env, Uploading(env))
  {
    assert UpdateBundleStatus(s5.db, Pair(env), Finalized) == Uploading(env).db;
    assert Next(env, s5, Mark(Syncer)) == Some(Uploading(env));
    OneMoreStep(env, s5, Mark(Syncer), Uploading(env));
  }

  ghost predicate OverlappingRestart(env: Env, s: State, t: State, u: State) {
    && Reachable(env, s) && Next(env, s, Crash) == Some(t) && Next(env, t, Restart(1, true)) == Some(u)
    && u.detail != s.detail && u.detail.lo == s.detail.hi
  }

  /** Bundles of successive runs can overlap: a restart after the bundle was marked Finalized and before its end was saved
      starts the next bundle at that same slot. */
  lemma {:induction false} RunsOverlap(env: Env)
    requires TwoSlots(env)
    ensures exists s, t, u :: OverlappingRestart(env, s, t, u)
  {
    ReachUploading(env);
    SecondSlotIsNext(env);
    var s := Uploading(env);
    var t := s.(up := false, sync := SIdle);
    assert Next(env, s, Crash) == Some(t);
    assert LatestPending(t.db.bundles) == None by {
      assert forall c :: !IsPending(t.db.bundles, c);
    }
    var d := FirstBundle(env.start + 1, 1);
    var u := t.(up := true, detail := d, interval := 1, detailed := true, runStart := env.start + 1, tiles := [d]);
    assert Next(env, t, Restart(1, true)) == Some(u);
    assert OverlappingRestart(env, s, t, u);
  }

  /** The look-up for a bundle without blobs, made before the end slot is saved. */
  ghost function LookedUp(env: Env): State
    requires TwoSlots(env)
  {
    Uploading(env).(ver := VMarkRange(env.start, Pair(env), NoBlobsInBundle(Pair(env), env.start + 1)))
  }

  lemma {:induction false} ReachLookedUp(env: Env)
    requires TwoSlots(env)
    ensures Reachable(env, LookedUp(env))
  {
    ReachUploading(env);
    var s0, v, b := Uploading(env), env.start, Pair(env);
    var s1 := s0.(ver := VRead(v, b));
    assert IsEarliestUnverified(s0.db.blocks, v);
    assert Next(env, s0, Pick) == Some(s1);
    OneMoreStep(env, s0, Pick, s1);
    FromRead(env, s1);
  }

  lemma {:induction false} FromRead(env: Env, s1: State)
    requires TwoSlots(env) && Reachable(env, s1) && s1 == Uploading(env).(ver := VRead(env.start, Pair(env)))
    ensures Reachable(env, LookedUp(env))
  {
    var v, b := env.start, Pair(env);
    var s2 := s1.(ver := VPicked(v, b));
    assert Next(env, s1, Open) == Some(s2);
    OneMoreStep(env, s1, Open, s2);
    FromPicked(env, s2);
  }

  lemma {:induction false} FromPicked(env: Env, s2: State)
    requires TwoSlots(env) && Reachable(env, s2) && s2 == Uploading(env).(ver := VPicked(env.start, Pair(env)))
    ensures Reachable(env, LookedUp(env))
  {
    var b := Pair(env);
    assert KeysBetween(s2.db.blobs, b.lo, b.hi) == {};
    assert Next(env, s2, NothingStored) == Some(LookedUp(env));
    OneMoreStep(env, s2, NothingStored, LookedUp(env));
  }

  /** A Verified block whose blobs were never compared: the end slot was saved between the look-up and the marking. */
  lemma {:induction false} EndSlotRace(env: Env)
    requires TwoSlots(env)
    ensures exists s :: Reachable(env, s) && EndSlotUnchecked(env, s)
  {
    ReachLookedUp(env);
    var s := LookedUp(env);
    Theorems.EndSlotSlipsThrough(env, s);
    var t := Next(env, s, Save).value;
    var u := Next(env, t, MarkRange).value;
    OneMoreStep(env, s, Save, t);
    OneMoreStep(env, t, MarkRange, u);
    assert EndSlotUnchecked(env, u);
  }

  ghost predicate EndSlotUnchecked(env: Env, s: State) {
    var n := env.start + 1;
    && n in s.db.blocks && s.db.blocks[n].status.Verified? && env.sidecars(n) != []
    && n in s.evidence && s.evidence[n].NoBlobsInBundle?
  }

  /** The bundle sealed while its end slot is still not saved, and the save failed. */
  ghost function SealedEarly(env: Env): State
    requires TwoSlots(env)
  {
    var s, b := Uploading(env), Pair(env);
    s.(db := s.db.(blocks := map[env.start := FirstRow(env).(status := Verified)],
                   bundles := map[b := PairRow(BundleStatus.Sealed)]),
       sync := SIdle, evidence := map[env.start := NoBlobsInBundle(b, env.start + 1)])
  }

  /** The range marked; only the first slot is saved. */
  ghost function Marked(env: Env): State
    requires TwoSlots(env)
  {
    var s, v, b := LookedUp(env), env.start, Pair(env);
    var e := NoBlobsInBundle(b, v + 1);
    s.(db := s.db.(blocks := map[v := FirstRow(env).(status := Verified)]), evidence := map[v := e], ver := VSeal(v, b, e))
  }

  lemma {:induction false} ReachMarked(env: Env)
    requires TwoSlots(env)
    ensures Reachable(env, Marked(env))
  {
    ReachLookedUp(env);
    var s, v, b := LookedUp(env), env.start, Pair(env);
    Threads.MarkingRangeIsAStep(env, s, v, b);
    var t := Next(env, s, MarkRange).value;
    MarkedBlocks(env);
    MarkedEvidence(env, t);
    assert t == Marked(env);
    OneMoreStep(env, s, MarkRange, t);
  }

  lemma {:induction false} MarkedBlocks(env: Env)
    requires TwoSlots(env)
    ensures UpdateBlocksStatus(LookedUp(env).db, env.start, env.start + 1, Verified) == Marked(env).db
  {
    var db := LookedUp(env).db;
    assert UpdateBlocksStatus(db, env.start, env.start + 1, Verified).blocks == Marked(env).db.blocks;
  }

  lemma {:induction false} MarkedEvidence(env: Env, t: State)
    requires TwoSlots(env) && Next(env, LookedUp(env), MarkRange) == Some(t)
    ensures t.evidence == Marked(env).evidence
  {
    assert LookedUp(env).db.blocks.Keys == {env.start};
    assert t.evidence.Keys == {env.start};
    assert t.evidence[env.start] == NoBlobsInBundle(Pair(env), env.start + 1);
  }

  lemma {:induction false} ReachSealedEarly(env: Env)
    requires TwoSlots(env)
    ensures Reachable(env, SealedEarly(env))
  {
    ReachMarked(env);
    var s, t := Marked(env), SealedEarly(env).(sync := SSave(env.start + 1));
    assert UpdateBundleStatus(s.db, Pair(env), BundleStatus.Sealed) == t.db;
    Threads.SealingIsAStep(env, s, Pair(env));
    OneMoreStep(env, s, Seal, t);
    FromSealed(env, t);
  }

  lemma {:induction false} FromSealed(env: Env, t: State)
    requires TwoSlots(env) && Reachable(env, t) && t == SealedEarly(env).(sync := SSave(env.start + 1))
    ensures Reachable(env, SealedEarly(env))
  {
    assert Next(env, t, Fail) == Some(SealedEarly(env));
    OneMoreStep(env, t, Fail, SealedEarly(env));
  }

  /** The retried end slot finds the bundle uploaded and is about to mark it again. */
  lemma {:induction false} ReachMarkAgain(env: Env)
    requires TwoSlots(env)
    ensures Reachable(env, SealedEarly(env).(sync := SMark(env.start + 1)))
  {
    ReachSealedEarly(env);
    var n, s0 := env.start + 1, SealedEarly(env);
    assert NextBlockNumOrSlot(s0.db.blocks, env.start) == n by {
      ReachableHolds(env, s0);
      SyncSteps.NextIsComputed(env, n, s0.db.blocks);
    }
    var s1 := s0.(sync := SFiles(n, 0));
    assert Next(env, s0, Begin) == Some(s1);
    OneMoreStep(env, s0, Begin, s1);
    FromRetry(env, s1);
  }

  lemma {:induction false} FromRetry(env: Env, s1: State)
    requires TwoSlots(env) && Reachable(env, s1) && s1 == SealedEarly(env).(sync := SFiles(env.start + 1, 0))
    ensures Reachable(env, SealedEarly(env).(sync := SMark(env.start + 1)))
  {
    var n := env.start + 1;
    var s2, s3 := s1.(sync := SUpload(n)), s1.(sync := SMark(n));
    assert Next(env, s1, FilesDone(Syncer)) == Some(s2);
    OneMoreStep(env, s1, FilesDone(Syncer), s2);
    assert Next(env, s2, Found) == Some(s3);
    OneMoreStep(env, s2, Found, s3);
  }

  ghost predicate Unsealing(env: Env, s: State, t: State, b: BundleId) {
    && Reachable(env, s) && Next(env, s, Mark(Syncer)) == Some(t)
    && b in s.db.bundles && s.db.bundles[b].status.Sealed? && b in t.db.bundles && t.db.bundles[b].status.Finalized?
  }

  /** The status of a bundle can go back: a retried end slot turns Sealed into Finalized. */
  lemma {:induction false} SealedCanReopen(env: Env)
    requires TwoSlots(env)
    ensures exists s, t :: Unsealing(env, s, t, Pair(env))
  {
    ReachMarkAgain(env);
    var s, b := SealedEarly(env).(sync := SMark(env.start + 1)), Pair(env);
    var t := s.(db := UpdateBundleStatus(s.db, b, Finalized), sync := SSave(env.start + 1));
    assert Next(env, s, Mark(Syncer)) == Some(t);
    assert Unsealing(env, s, t, b);
  }

  /******* A bundle without blobs *******/

  /** Neither slot has blobs: the upload of the empty directory was refused and the directory removed, the row not yet marked. */
  function Refusing(env: Env): State {
    HalfSaved(env).(dirs := map[], sync := SMark(env.start + 1))
  }

  lemma {:induction false} ReachRefusing(env: Env)
    requires FirstEmpty(env) && env.sidecars(env.start + 1) == []
    ensures Reachable(env, Refusing(env))
  {
    ReachHalfSaved(env);
    SecondSlotIsNext(env);
    var n, s0 := env.start + 1, HalfSaved(env);
    var s1, s2 := s0.(sync := SFiles(n, 0)), s0.(sync := SUpload(n));
    assert Next(env, s0, Begin) == Some(s1);
    OneMoreStep(env, s0, Begin, s1);
    assert Next(env, s1, FilesDone(Syncer)) == Some(s2);
    OneMoreStep(env, s1, FilesDone(Syncer), s2);
    FromEmptyUpload(env, s2);
  }

  lemma {:induction false} FromEmptyUpload(env: Env, s2: State)
    requires FirstEmpty(env) && Reachable(env, s2) && s2 == HalfSaved(env).(sync := SUpload(env.start + 1))
    ensures Reachable(env, Refusing(env))
  {
    var s3 := s2.(sync := SRemove(env.start + 1));
    assert Next(env, s2, Refused(Syncer)) == Some(s3);
    OneMoreStep(env, s2, Refused(Syncer), s3);
    assert s3.dirs - {Local(Pair(env))} == map[];
    assert Next(env, s3, RemoveDir(Syncer)) == Some(Refusing(env));
    OneMoreStep(env, s3, RemoveDir(Syncer), Refusing(env));
  }

  /** A bundle without blobs whose row could not be marked after its directory was removed is stuck for good: one failed
      database call is enough. */
  lemma {:induction false} EmptyBundleGetsStuck(env: Env)
    requires FirstEmpty(env) && env.sidecars(env.start + 1) == []
    ensures exists s :: Reachable(env, s) && s.up && s.sync.SIdle? && Progress.Stuck(s, Pair(env))
  {
    ReachRefusing(env);
    var s := Refusing(env).(sync := SIdle);
    assert Next(env, Refusing(env), Fail) == Some(s);
    OneMoreStep(env, Refusing(env), Fail, s);
    assert Progress.Stuck(s, Pair(env));
  }
}
