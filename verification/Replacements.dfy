/** Runs in which a bundle is replaced, or a block is stored again under another one, and what goes wrong afterwards. */
module Replacements {
  import opened Types
  import opened Dao
  import opened Protocol
  import opened Invariant
  import opened Safety
  import Chain
  import Checks
  import Checksum
  import Progress
  import Races
  import ReuploadSteps
  import SyncSteps
  import Theorems
  import Threads
  import Verifying

  /******* Steps of the sync thread *******/

  lemma {:induction false} Begins(env: Env, s: State) returns (t: State)
    requires env.WellFormed() && Reachable(env, s) && s.up && s.sync.SIdle?
    ensures t == s.(sync := if s.next == s.detail.lo then SDir(s.next) else SFiles(s.next, 0)) && Reachable(env, t)
  {
    t := s.(sync := if s.next == s.detail.lo then SDir(s.next) else SFiles(s.next, 0));
    assert NextBlockNumOrSlot(s.db.blocks, env.start) == s.next by {
      ReachableHolds(env, s);
      SyncSteps.NextIsComputed(env, s.next, s.db.blocks);
    }
    assert Next(env, s, Begin) == Some(t);
    OneMoreStep(env, s, Begin, t);
  }

  /** The files of the slot written; a slot of at most one blob. */
  lemma {:induction false} Collects(env: Env, s: State) returns (t: State)
    requires Reachable(env, s) && s.up && s.sync.SFiles? && s.sync.i == 0 && |env.sidecars(s.sync.n)| <= 1
    requires Local(s.detail) in s.dirs
    ensures var n, dir := s.sync.n, Local(s.detail);
      && t == s.(dirs := t.dirs, sync := if n == s.detail.hi then SUpload(n) else SSave(n)) && Reachable(env, t)
      && t.dirs == if env.sidecars(n) == [] then s.dirs else Written(env, s.dirs, dir, n, 0)
  {
    hide VerifyNext, ReuploadNext, ProcessNext;
    var n, dir := s.sync.n, Local(s.detail);
    var mid := s;
    if env.sidecars(n) != [] {
      mid := s.(dirs := Written(env, s.dirs, dir, n, 0), sync := SFiles(n, 1));
      assert Next(env, s, WriteFile(Syncer)) == Some(mid);
      OneMoreStep(env, s, WriteFile(Syncer), mid);
    }
    t := mid.(sync := if n == s.detail.hi then SUpload(n) else SSave(n));
    assert Next(env, mid, FilesDone(Syncer)) == Some(t);
    OneMoreStep(env, mid, FilesDone(Syncer), t);
  }

  lemma {:induction false} Finalizes(env: Env, s: State) returns (t: State)
    requires Reachable(env, s) && s.up && s.sync.SUpload? && Local(s.detail) in s.dirs && s.dirs[Local(s.detail)] != map[]
    ensures t == s.(uploads := s.uploads + {Upload(s.detail, s.dirs[Local(s.detail)])}, dirs := s.dirs - {Local(s.detail)},
                    db := UpdateBundleStatus(s.db, s.detail, Finalized), sync := SSave(s.sync.n))
    ensures Reachable(env, t)
  {
    hide VerifyNext, ReuploadNext, ProcessNext;
    var n, dir := s.sync.n, Local(s.detail);
    var s1 := s.(uploads := s.uploads + {Upload(s.detail, s.dirs[dir])}, sync := SRemove(n));
    assert Next(env, s, UploadDir(Syncer, true)) == Some(s1);
    OneMoreStep(env, s, UploadDir(Syncer, true), s1);
    var s2 := s1.(dirs := s.dirs - {dir}, sync := SMark(n));
    assert Next(env, s1, RemoveDir(Syncer)) == Some(s2);
    OneMoreStep(env, s1, RemoveDir(Syncer), s2);
    t := s2.(db := UpdateBundleStatus(s.db, s.detail, Finalized), sync := SSave(n));
    assert Next(env, s2, Mark(Syncer)) == Some(t);
    OneMoreStep(env, s2, Mark(Syncer), t);
  }

  lemma {:induction false} Saves(env: Env, s: State) returns (t: State)
    requires env.WellFormed() && Reachable(env, s) && s.up && s.sync.SSave? && s.next + s.interval < UINT64_LIMIT
    ensures s.sync.n == s.next && Reachable(env, t)
    ensures t == s.(db := t.db, next := s.next + 1, sync := SIdle, tiles := t.tiles,
                    detail := if s.next == s.detail.hi then FirstBundle(s.next + 1, s.interval) else s.detail)
    ensures s.next != s.detail.hi ==> t.tiles == s.tiles
    ensures t.db.bundles == s.db.bundles
    ensures t.db.blocks == s.db.blocks[s.next := BlockOf(env, s.next, s.detail).(id := s.db.blockSeq)]
  {
    hide Next, Rows, BlobRows, SyncDirs, Tiled;
    assert TablesFit(env, s.next, s.db) && SyncAt(env, s) && Current(env, s) by { ReachableHolds(env, s); }
    Progress.Saves(env, s);
    t := Next(env, s, Save).value;
    OneMoreStep(env, s, Save, t);
    SyncerActs(env, s, Save, t);
    SyncSteps.SaveMeans(env, s, t);
    SyncSteps.SaveTables(env, s, t);
  }

  /******* A re-upload given up, or completed over a slot without beacon block *******/

  /** Two slots without blobs, the first with a beacon block, and one with a blob. */
  ghost predicate ThreeSlots(env: Env) {
    && env.WellFormed() && env.start + 8 < UINT64_LIMIT && !env.forked(env.start)
    && env.sidecars(env.start) == [] && env.sidecars(env.start + 1) == [] && |env.sidecars(env.start + 2)| == 1
  }

  function Triple(env: Env): BundleId {
    FirstBundle(env.start, 3)
  }

  /** The three slots are saved in one bundle, which is the only one, and the first `done` of them are Verified. */
  ghost predicate Checked(env: Env, s: State, done: nat) {
    && s.up && s.detailed && s.ver.VIdle? && !s.torn && s.next == env.start + 3
    && (forall n :: env.start <= n < env.start + 3 ==>
          && n in s.db.blocks && s.db.blocks[n].bundle == Triple(env) && s.db.blocks[n].blobCount == |env.sidecars(n)|
          && s.db.blocks[n].status == if n < env.start + done then Verified else Processed)
    && s.db.bundles == map[Triple(env) := Races.PairRow(Finalized)]
  }

  lemma {:induction false} TwoEmptySlots(env: Env) returns (s: State)
    requires ThreeSlots(env)
    ensures Reachable(env, s)
    ensures s == Races.Opened(env, 3).(db := s.db, sync := SFiles(env.start + 2, 0), next := env.start + 2)
    ensures s.db.bundles == Races.Opened(env, 3).db.bundles
    ensures forall n: nat :: env.start <= n < env.start + 2 ==>
      n in s.db.blocks && s.db.blocks[n].(id := 0) == BlockOf(env, n, Triple(env))
  {
    hide Next, Reachable;
    Races.ReachOpened(env, 3);
    var s0 := Races.Opened(env, 3);
    var s1 := Collects(env, s0);
    var s2 := Saves(env, s1);
    var s3 := Begins(env, s2);
    var s4 := Collects(env, s3);
    var s5 := Saves(env, s4);
    s := Begins(env, s5);
  }

  lemma {:induction false} AllSaved(env: Env) returns (s: State)
    requires ThreeSlots(env)
    ensures Reachable(env, s) && Checked(env, s, 0)
  {
    hide Next, Reachable;
    var s0 := TwoEmptySlots(env);
    var s1 := Collects(env, s0);
    assert BlobKey(env.start + 2, 0) in s1.dirs[Local(s1.detail)];
    var s2 := Finalizes(env, s1);
    s := Saves(env, s2);
  }

  /** The verify thread reads block v and its bundle. */
  lemma {:induction false} Opens(env: Env, s: State, v: nat) returns (t: State)
    requires Reachable(env, s) && s.up && s.ver.VIdle? && IsEarliestUnverified(s.db.blocks, v)
    requires Past(s.db.bundles, s.db.blocks[v].bundle)
    ensures t == s.(ver := VPicked(v, s.db.blocks[v].bundle)) && Reachable(env, t)
  {
    hide Next;
    var b := s.db.blocks[v].bundle;
    Threads.PickingIsAStep(env, s, v);
    var mid := s.(ver := VRead(v, b));
    OneMoreStep(env, s, Pick, mid);
    Threads.OpeningIsAStep(env, mid, v, b);
    t := mid.(ver := VPicked(v, b));
    OneMoreStep(env, mid, Open, t);
  }

  lemma {:induction false} EarliestIs(env: Env, s: State, v: nat, done: nat)
    requires ThreeSlots(env) && Reachable(env, s) && Checked(env, s, done) && done < 3 && v == env.start + done
    ensures IsEarliestUnverified(s.db.blocks, v)
  {
    ReachableHolds(env, s);
  }

  lemma {:induction false} ChecksEmpty(env: Env, s: State, done: nat) returns (t: State)
    requires ThreeSlots(env) && Reachable(env, s) && Checked(env, s, done) && done < 2
    ensures Checked(env, t, done + 1) && Reachable(env, t)
  {
    hide Next;
    var v, b := env.start + done, Triple(env);
    EarliestIs(env, s, v, done);
    var s1 := Opens(env, s, v);
    Threads.NoBlobsIsAStep(env, s1, v, b);
    var s2 := s1.(ver := VMarkOne(v, b, NoBlobsInBlock(b)));
    OneMoreStep(env, s1, NoBlobs, s2);
    Threads.MarkingOneIsAStep(env, s2, v, b);
    t := Next(env, s2, MarkOne).value;
    OneMoreStep(env, s2, MarkOne, t);
  }

  /** The bundle service misses the blob of the last slot, so the bundle is to be replaced. */
  lemma {:induction false} Misses(env: Env, s: State) returns (t: State)
    requires ThreeSlots(env) && Reachable(env, s) && Checked(env, s, 2)
    ensures t == s.(ver := RDeprecate(env.start + 2, Triple(env))) && Reachable(env, t)
  {
    hide Next;
    var v, b := env.start + 2, Triple(env);
    assert IsEarliestUnverified(s.db.blocks, v) by { EarliestIs(env, s, v, 2); }
    var s1 := Opens(env, s, v);
    assert |RowsAt(s.db.blobs, v)| == 1 by { Theorems.BlobRowsAreComplete(env, s); }
    assert Checks.CheckBlobs(env.coding.sha, env.sidecars(v), RowsAt(s.db.blobs, v), [Checks.Missing], 0) == Checks.Pass;
    Threads.CheckingIsAStep(env, s1, v, b, [Checks.Missing], Checks.Mismatch);
    t := s1.(ver := RDeprecate(v, b));
    OneMoreStep(env, s1, CheckReplies([Checks.Missing]), t);
  }

  function Renamed(env: Env): BundleId {
    Triple(env).(stamp := Some(1))
  }

  lemma {:induction false} StartsReplacing(env: Env, s: State) returns (t: State)
    requires Reachable(env, s) && s.up && s.ver == RDeprecate(env.start + 2, Triple(env))
    requires s.db.bundles == map[Triple(env) := Races.PairRow(Finalized)]
    ensures Reachable(env, t) && Local(Renamed(env)) in t.dirs
    ensures t == s.(ver := RFiles(env.start + 2, Triple(env), Renamed(env), env.start, 0), before := s.db,
                    db := t.db, dirs := t.dirs)
    ensures t.db.blocks == s.db.blocks && Renamed(env) in t.db.bundles && t.db.bundles[Renamed(env)].status.Finalizing?
  {
    hide Next;
    var v, b, nb := env.start + 2, Triple(env), Renamed(env);
    Threads.DeprecatingIsAStep(env, s, v, b, 1);
    var s1 := s.(before := s.db, db := UpdateBundleStatus(s.db, b, BundleStatus.Deprecated), ver := RDir(v, b, nb));
    OneMoreStep(env, s, Deprecate(1), s1);
    Threads.MakingDirIsAStep(env, s1, v, b, nb);
    var s2 := s1.(dirs := Made(s1.dirs, Local(nb)), ver := RRow(v, b, nb));
    OneMoreStep(env, s1, MakeNewDir, s2);
    Threads.InsertingIsAStep(env, s2, v, b, nb, 1);
    t := Next(env, s2, MakeNewRow(1)).value;
    OneMoreStep(env, s2, MakeNewRow(1), t);
  }

  /** One slot of at most one blob is collected again and its rows are moved. */
  lemma {:induction false} MovesSlot(env: Env, s: State, n: nat) returns (t: State)
    requires env.WellFormed() && Reachable(env, s) && s.ver.RFiles? && s.ver.n == n && s.ver.i == 0
    requires !env.forked(n) && |env.sidecars(n)| <= 1 && n in s.db.blocks
    ensures Reachable(env, t) && t.ver == Following(s.ver)
    ensures t == s.(ver := t.ver, db := t.db, dirs := t.dirs, evidence := t.evidence, torn := t.torn)
    ensures t.db.bundles == s.db.bundles && n in t.db.blocks && t.db.blocks == s.db.blocks[n := t.db.blocks[n]]
    ensures t.db.blocks[n].bundle == s.ver.nb && t.db.blocks[n].status.Processed?
    ensures env.sidecars(n) != [] ==> Local(s.ver.nb) in t.dirs && BlobKey(n, 0) in t.dirs[Local(s.ver.nb)]
    ensures n < s.ver.b.hi ==> t.torn == s.torn
  {
    hide Next;
    var mid := WritesSlot(env, s, n);
    t := SavesMoved(env, mid, n);
  }

  lemma {:induction false} WritingNewIsAStep(env: Env, s: State, v: nat, b: BundleId, nb: BundleId, n: nat)
    requires s.up && s.ver == RFiles(v, b, nb, n, 0) && Local(nb) in s.dirs && env.sidecars(n) != []
    ensures Next(env, s, WriteFile(Verifier)) ==
      Some(s.(dirs := Written(env, s.dirs, Local(nb), n, 0), ver := RFiles(v, b, nb, n, 1)))
  {
  }

  lemma {:induction false} WrittenIsAStep(env: Env, s: State, v: nat, b: BundleId, nb: BundleId, n: nat)
    requires s.up && s.ver == RFiles(v, b, nb, n, |env.sidecars(n)|) && !env.forked(n)
    ensures Next(env, s, FilesDone(Verifier)) == Some(s.(ver := RSave(v, b, nb, n)))
  {
  }

  lemma {:induction false} WritesSlot(env: Env, s: State, n: nat) returns (t: State)
    requires env.WellFormed() && Reachable(env, s) && s.ver.RFiles? && s.ver.n == n && s.ver.i == 0
    requires !env.forked(n) && |env.sidecars(n)| <= 1
    ensures Reachable(env, t) && t == s.(ver := RSave(s.ver.v, s.ver.b, s.ver.nb, n), dirs := t.dirs)
    ensures env.sidecars(n) != [] ==> Local(s.ver.nb) in t.dirs && BlobKey(n, 0) in t.dirs[Local(s.ver.nb)]
  {
    hide Next;
    var v, b, nb := s.ver.v, s.ver.b, s.ver.nb;
    assert s.up && Local(nb) in s.dirs by { ReachableHolds(env, s); }
    var mid := s;
    if env.sidecars(n) != [] {
      mid := s.(dirs := Written(env, s.dirs, Local(nb), n, 0), ver := RFiles(v, b, nb, n, 1));
      WritingNewIsAStep(env, s, v, b, nb, n);
      OneMoreStep(env, s, WriteFile(Verifier), mid);
    }
    t := mid.(ver := RSave(v, b, nb, n));
    WrittenIsAStep(env, mid, v, b, nb, n);
    OneMoreStep(env, mid, FilesDone(Verifier), t);
  }

  lemma {:induction false} SavesMoved(env: Env, s: State, n: nat) returns (t: State)
    requires env.WellFormed() && Reachable(env, s) && s.ver.RSave? && s.ver.n == n && n in s.db.blocks
    ensures Next(env, s, SaveMoved) == Some(t) && Reachable(env, t) && t.ver == Following(s.ver)
    ensures t == s.(ver := t.ver, db := t.db, evidence := t.evidence, torn := t.torn)
    ensures t.db.bundles == s.db.bundles && n in t.db.blocks && t.db.blocks == s.db.blocks[n := t.db.blocks[n]]
    ensures t.db.blocks[n].bundle == s.ver.nb && t.db.blocks[n].status.Processed?
    ensures n < s.ver.b.hi ==> t.torn == s.torn
  {
    hide Next, ReuploadNext, SaveBlockAndBlob, WithIds, RowsAt, Broken, TablesFit, VerAt, Reachable, Rows;
    assert s.up && TablesFit(env, s.next, s.db) && VerAt(env, s) && Rows(env, n).Some? by { CanMove(env, s); }
    Threads.MovingIsAStep(env, s, s.ver.v, s.ver.b, s.ver.nb, n);
    t := Next(env, s, SaveMoved).value;
    OneMoreStep(env, s, SaveMoved, t);
    Theorems.ReuploadActs(env, s, SaveMoved, t);
    var block := ReuploadSteps.MovedSlotTables(env, s, t);
  }

  lemma {:induction false} CanMove(env: Env, s: State)
    requires env.WellFormed() && Reachable(env, s) && s.ver.RSave?
    ensures s.up && TablesFit(env, s.next, s.db) && VerAt(env, s) && Rows(env, s.ver.n).Some?
  {
    var n := s.ver.n;
    Chain.ToBlobsShape(env.eth, n, env.sidecars(n), env.txs(n));
    assert Inv(env, s) by { ReachableHolds(env, s); }
  }

  /** The first slot moved, the second still Verified, the third Processed under the old name. */
  ghost predicate Halfway(env: Env, s: State) {
    var lo := env.start;
    && s.up && s.ver == RFiles(lo + 2, Triple(env), Renamed(env), lo + 1, 0) && !s.torn && s.next == lo + 3
    && (forall n :: lo <= n < lo + 3 ==> n in s.db.blocks)
    && s.db.blocks[lo].status.Processed? && s.db.blocks[lo].bundle == Renamed(env)
    && s.db.blocks[lo + 1].status.Verified? && s.db.blocks[lo + 1].bundle == Triple(env)
    && Renamed(env) in s.db.bundles && s.db.bundles[Renamed(env)].status.Finalizing?
  }

  lemma {:induction false} ReachHalfway(env: Env) returns (s: State)
    requires ThreeSlots(env)
    ensures Halfway(env, s) && Reachable(env, s)
  {
    hide Next, Reachable;
    var s0 := AllSaved(env);
    var s1 := ChecksEmpty(env, s0, 0);
    var s2 := ChecksEmpty(env, s1, 1);
    var s3 := Misses(env, s2);
    var s4 := StartsReplacing(env, s3);
    s := MovesSlot(env, s4, env.start);
  }

  lemma {:induction false} Stops(env: Env, s: State)
    requires s.up && !s.ver.VIdle?
    ensures Next(env, s, Stop).Some?
  {
  }

  ghost predicate GivesUp(env: Env, s: State, t: State) {
    Reachable(env, s) && !s.torn && Moving(s.ver) && Next(env, s, Stop) == Some(t)
  }

  /** Giving up a re-upload after its first slot can leave a Verified block above a Processed one, and the verify thread stuck
      for good: one failed call is enough. */
  lemma {:induction false} GivenUpHalfway(env: Env)
    requires ThreeSlots(env)
    ensures exists s, t :: GivesUp(env, s, t) && !Frontier(t.db.blocks) && Verifying.VerifyStuck(t, env.start)
  {
    hide Next, Reachable, Frontier, Verifying.VerifyStuck;
    var s := ReachHalfway(env);
    Stops(env, s);
    var t := Next(env, s, Stop).value;
    Theorems.StopTears(env, s, Stop, t);
    assert GivesUp(env, s, t);
    StuckHalfway(env, s, t);
  }

  lemma {:induction false} StuckHalfway(env: Env, s: State, t: State)
    requires ThreeSlots(env) && Reachable(env, s) && Halfway(env, s) && t.db == s.db && t.ver.VIdle?
    ensures !Frontier(t.db.blocks) && Verifying.VerifyStuck(t, env.start)
  {
    hide Reachable;
    assert s.db.blocks[env.start + 1].status.Verified?;
    assert IsEarliestUnverified(t.db.blocks, env.start) by { ReachableHolds(env, s); }
    assert Verifying.VerifyStuck(t, env.start);
  }

  /** The middle slot has no beacon block and is passed over; the files of the last slot are written. */
  lemma {:induction false} PassesOver(env: Env, s: State) returns (t: State)
    requires ThreeSlots(env) && env.forked(env.start + 1) && Reachable(env, s) && Halfway(env, s)
    ensures Reachable(env, t) && t.ver == RSave(env.start + 2, Triple(env), Renamed(env), env.start + 2)
    ensures t == s.(ver := t.ver, dirs := t.dirs)
    ensures Local(Renamed(env)) in t.dirs && t.dirs[Local(Renamed(env))] != map[]
  {
    hide Next, Reachable;
    var v, b, nb, n := env.start + 2, Triple(env), Renamed(env), env.start + 1;
    Threads.FilesDoneIsAStep(env, s, v, b, nb, n);
    var mid := Next(env, s, FilesDone(Verifier)).value;
    PassingDoesNotTear(env, s, mid);
    OneMoreStep(env, s, FilesDone(Verifier), mid);
    t := WritesSlot(env, mid, n + 1);
  }

  lemma {:induction false} PassingDoesNotTear(env: Env, s: State, t: State)
    requires s.ver.RFiles? && s.ver.n < s.ver.b.hi && Next(env, s, FilesDone(Verifier)) == Some(t)
    ensures t.torn == s.torn
  {
    hide Broken;
  }

  /** Slot by slot the loop of the re-upload is done. */
  ghost predicate Completes(env: Env, s: State, a: Action, t: State) {
    Reachable(env, s) && !s.torn && Moving(s.ver) && Next(env, s, a) == Some(t) && t.ver.RUpload?
  }

  /** The first and the last slot moved, the one without beacon block as it was. */
  ghost predicate LeftBehind(env: Env, s: State) {
    var lo := env.start;
    && lo in s.db.blocks && lo + 1 in s.db.blocks
    && s.db.blocks[lo].status.Processed? && s.db.blocks[lo].bundle == Renamed(env)
    && s.db.blocks[lo + 1].status.Verified? && s.db.blocks[lo + 1].bundle == Triple(env)
  }

  lemma {:induction false} ReachCompleted(env: Env) returns (s: State, t: State)
    requires ThreeSlots(env) && env.forked(env.start + 1)
    ensures Completes(env, s, SaveMoved, t) && Reachable(env, t) && LeftBehind(env, t)
    ensures t.up && t.ver == RUpload(env.start + 2, Triple(env), Renamed(env))
    ensures Local(Renamed(env)) in t.dirs && t.dirs[Local(Renamed(env))] != map[]
  {
    hide Next, Reachable;
    var s0 := ReachHalfway(env);
    s := PassesOver(env, s0);
    t := SavesMoved(env, s, env.start + 2);
  }

  /** A re-upload that is completed can leave a Verified block above a Processed one, too: it passes over the slot without beacon
      block. */
  lemma {:induction false} CompletedOverGap(env: Env)
    requires ThreeSlots(env) && env.forked(env.start + 1)
    ensures exists s, a, t :: Completes(env, s, a, t) && !Frontier(t.db.blocks)
  {
    var s, t := ReachCompleted(env);
    assert t.db.blocks[env.start].status.Processed? && t.db.blocks[env.start + 1].status.Verified?;
  }

  ghost predicate Replaced(env: Env, s: State, t: State) {
    Reachable(env, s) && s.ver.RMark? && Next(env, s, Mark(Verifier)) == Some(t)
  }

  lemma {:induction false} FinishesReplacing(env: Env, s: State) returns (t: State, u: State)
    requires Reachable(env, s) && s.up && s.ver.RUpload? && Local(s.ver.nb) in s.dirs && s.dirs[Local(s.ver.nb)] != map[]
    ensures Replaced(env, t, u) && t.ver.b == s.ver.b && t.ver.nb == s.ver.nb && u.db.blocks == s.db.blocks
  {
    hide VerifyNext, SyncNext, ProcessNext, Reachable;
    var v, b, nb := s.ver.v, s.ver.b, s.ver.nb;
    var s1 := s.(uploads := s.uploads + {Upload(nb, s.dirs[Local(nb)])}, ver := RRemove(v, b, nb));
    assert Next(env, s, UploadDir(Verifier, true)) == Some(s1);
    OneMoreStep(env, s, UploadDir(Verifier, true), s1);
    t, u := MarksReplacement(env, s1);
  }

  lemma {:induction false} MarksReplacement(env: Env, s: State) returns (t: State, u: State)
    requires Reachable(env, s) && s.up && s.ver.RRemove?
    ensures Replaced(env, t, u) && t.ver.b == s.ver.b && t.ver.nb == s.ver.nb && u.db.blocks == s.db.blocks
  {
    hide VerifyNext, SyncNext, ProcessNext, Reachable;
    var v, b, nb := s.ver.v, s.ver.b, s.ver.nb;
    t := s.(dirs := s.dirs - {Local(nb)}, ver := RMark(v, b, nb));
    assert Next(env, s, RemoveDir(Verifier)) == Some(t);
    OneMoreStep(env, s, RemoveDir(Verifier), t);
    u := t.(db := UpdateBundleStatus(t.db, nb, Finalized), ver := VIdle);
    assert Next(env, t, Mark(Verifier)) == Some(u);
  }

  /** After a completed re-upload under a new name a slot without beacon block can still name the replaced bundle. */
  lemma {:induction false} OldNameStays(env: Env)
    requires ThreeSlots(env) && env.forked(env.start + 1)
    ensures exists s, t, n ::
      Replaced(env, s, t) && s.ver.nb != s.ver.b && n in t.db.blocks && t.db.blocks[n].bundle == s.ver.b && !Frontier(t.db.blocks)
  {
    var s0, s1 := ReachCompleted(env);
    var s, t := FinishesReplacing(env, s1);
    assert t.db.blocks[env.start].status.Processed? && t.db.blocks[env.start + 1].status.Verified?;
    assert Replaced(env, s, t) && t.db.blocks[env.start + 1].bundle == s.ver.b;
  }

  /******* A block verified through another bundle *******/

  /** The bundle that a restart starts at the unsaved end slot of the first one. */
  function Second(env: Env): BundleId {
    FirstBundle(env.start + 1, 2)
  }

  /** The process goes down after the first bundle was marked and comes up checking bundle by bundle. */
  lemma {:induction false} RestartsAtEnd(env: Env) returns (t: State)
    requires Races.TwoSlots(env)
    ensures var s := Races.Uploading(env);
      t == s.(detail := Second(env), detailed := false, sync := SIdle, runStart := env.start + 1, tiles := [Second(env)])
    ensures Reachable(env, t)
  {
    Races.ReachUploading(env);
    Races.SecondSlotIsNext(env);
    var s := Races.Uploading(env);
    var mid := s.(up := false, sync := SIdle);
    assert Next(env, s, Crash) == Some(mid);
    OneMoreStep(env, s, Crash, mid);
    assert LatestPending(mid.db.bundles) == None by {
      assert forall c :: !IsPending(mid.db.bundles, c);
    }
    t := Races.Uploading(env).(
      detail := Second(env), detailed := false, sync := SIdle, runStart := env.start + 1, tiles := [Second(env)]);
    assert Next(env, mid, Restart(2, false)) == Some(t);
    OneMoreStep(env, mid, Restart(2, false), t);
  }

  lemma {:induction false} StartsBundle(env: Env, s: State) returns (t: State)
    requires Reachable(env, s) && s.up && s.sync == SDir(s.detail.lo)
    ensures t == s.(dirs := Made(s.dirs, Local(s.detail)), db := CreateBundle(s.db, s.detail, false, 0),
                    sync := SFiles(s.detail.lo, 0))
    ensures Reachable(env, t)
  {
    var mid := s.(dirs := Made(s.dirs, Local(s.detail)), sync := SRow(s.detail.lo));
    assert Next(env, s, MakeDir) == Some(mid);
    OneMoreStep(env, s, MakeDir, mid);
    t := mid.(db := CreateBundle(s.db, s.detail, false, 0), sync := SFiles(s.detail.lo, 0));
    assert Next(env, mid, MakeRow(0)) == Some(t);
    OneMoreStep(env, mid, MakeRow(0), t);
  }

  /** Both slots are saved, the first under the bundle that was uploaded, the second under one that was not. */
  ghost predicate Split(env: Env, s: State) {
    var lo, b, c := env.start, Races.Pair(env), Second(env);
    && s.up && !s.detailed && s.ver.VIdle? && s.next == lo + 2 && lo in s.db.blocks && lo + 1 in s.db.blocks
    && s.db.blocks[lo].bundle == b && s.db.blocks[lo].status.Processed? && s.db.blocks[lo + 1].bundle == c
    && b in s.db.bundles && s.db.bundles[b].status.Finalized?
    && c in s.db.bundles && s.db.bundles[c].status.Finalizing? && (forall u :: u in s.uploads ==> u.b == b)
  }

  lemma {:induction false} ReachSplit(env: Env) returns (s: State)
    requires Races.TwoSlots(env)
    ensures Reachable(env, s) && Split(env, s)
  {
    hide Next, Reachable;
    var s0 := RestartsAtEnd(env);
    var s1 := Begins(env, s0);
    var s2 := StartsBundle(env, s1);
    var s3 := Collects(env, s2);
    s := Saves(env, s3);
  }

  /** The first bundle is rebuilt, blob by blob of its two slots. */
  lemma {:induction false} Rebuilds(env: Env, s: State) returns (t: State)
    requires Races.TwoSlots(env) && Reachable(env, s) && Split(env, s)
    ensures t == s.(ver := VCompare(env.start, Races.Pair(env)), dirs := t.dirs) && Reachable(env, t)
  {
    hide Next, Expected;
    var v, b := env.start, Races.Pair(env);
    assert IsEarliestUnverified(s.db.blocks, v) by { ReachableHolds(env, s); }
    var s1 := Opens(env, s, v);
    Threads.RebuildingIsAStep(env, s1, v, b);
    var s2 := Next(env, s1, Rebuild).value;
    OneMoreStep(env, s1, Rebuild, s2);
    Threads.RebuiltIsAStep(env, s2, v, b, v);
    var s3 := s2.(ver := VScratch(v, b, v + 1, 0));
    OneMoreStep(env, s2, FilesDone(Verifier), s3);
    t := RebuildsLast(env, s3);
  }

  lemma {:induction false} RowStored(env: Env, s: State)
    requires Races.TwoSlots(env) && Reachable(env, s) && env.start + 1 in s.db.blocks
    ensures KeysBetween(s.db.blobs, env.start, env.start + 1) != {}
  {
    Theorems.BlobRowsAreComplete(env, s);
    assert BlobKey(env.start + 1, 0) in KeysBetween(s.db.blobs, env.start, env.start + 1);
  }

  lemma {:induction false} RebuildsLast(env: Env, s: State) returns (t: State)
    requires Races.TwoSlots(env) && Reachable(env, s) && s.ver == VScratch(env.start, Races.Pair(env), env.start + 1, 0)
    ensures t == s.(ver := VCompare(env.start, Races.Pair(env)), dirs := t.dirs) && Reachable(env, t)
  {
    var v, b := env.start, Races.Pair(env);
    assert s.up && Scratch(b) in s.dirs by { ReachableHolds(env, s); }
    var mid := s.(dirs := Written(env, s.dirs, Scratch(b), v + 1, 0), ver := VScratch(v, b, v + 1, 1));
    assert Next(env, s, WriteFile(Verifier)) == Some(mid);
    OneMoreStep(env, s, WriteFile(Verifier), mid);
    Threads.RebuiltIsAStep(env, mid, v, b, v + 1);
    t := mid.(ver := VCompare(v, b));
    OneMoreStep(env, mid, FilesDone(Verifier), t);
  }

  /** A Verified block with blobs whose evidence is for another bundle than the one it names, which was never uploaded. */
  ghost predicate VerifiedElsewhere(env: Env, s: State, n: nat) {
    && n in s.db.blocks && s.db.blocks[n].status.Verified? && env.sidecars(n) != []
    && n in s.evidence && s.evidence[n].BundleMatched? && s.evidence[n].b != s.db.blocks[n].bundle
    && s.db.blocks[n].bundle in s.db.bundles && s.db.bundles[s.db.blocks[n].bundle].status.Finalizing?
    && !Progress.Stored(s, s.db.blocks[n].bundle)
  }

  /** The end slot of a bundle, saved under another one after a restart, is marked with the first when that one is checked as a
      whole. */
  lemma {:induction false} VerifiedThroughAnother(env: Env)
    requires Races.TwoSlots(env) && Verifying.Encodes(env, Races.Pair(env))
    ensures exists s, n :: Reachable(env, s) && VerifiedElsewhere(env, s, n)
  {
    hide Next, Reachable;
    var v, b := env.start, Races.Pair(env);
    var s0 := ReachSplit(env);
    var s1 := Rebuilds(env, s0);
    var s2 := Matches(env, s1);
    Theorems.MarkRangeMeans(env, s2, v + 1);
    var t := Next(env, s2, MarkRange).value;
    Threads.MarkingRangeIsAStep(env, s2, v, b);
    OneMoreStep(env, s2, MarkRange, t);
    assert VerifiedElsewhere(env, t, v + 1);
  }

  lemma {:induction false} Matches(env: Env, s: State) returns (t: State)
    requires Races.TwoSlots(env) && Verifying.Encodes(env, Races.Pair(env)) && Reachable(env, s)
    requires s.ver == VCompare(env.start, Races.Pair(env)) && env.start + 1 in s.db.blocks
    ensures Reachable(env, t) && t.ver.VMarkRange? && t.ver.v == env.start && t.ver.b == Races.Pair(env) && t.ver.e.BundleMatched?
    ensures t == s.(ver := t.ver) && t.ver.e.b == t.ver.b && t.up
  {
    hide Next, Expected;
    var v, b := env.start, Races.Pair(env);
    RowStored(env, s);
    var k :| k in KeysBetween(s.db.blobs, b.lo, b.hi);
    Verifying.RowMeansBlob(env, s, b, k);
    Verifying.ChecksASavedBlock(env, s);
    var hashes := Checksum.HashList(env.coding, Theorems.RebuiltObject(env, b), env.segmentSize).value;
    var onChain := Checks.Recorded(env.base64, hashes);
    Theorems.RecordedMatch(env.base64, hashes);
    Threads.ComparingIsAStep(env, s, v, b, onChain, hashes);
    t := s.(ver := VMarkRange(v, b, BundleMatched(b, onChain)));
    OneMoreStep(env, s, Compare(onChain), t);
  }
}
