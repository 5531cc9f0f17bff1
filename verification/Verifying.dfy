/** When the verify thread can check its next block, and a state from which it never checks any. */
module Verifying {
  import opened Types
  import opened Dao
  import opened Protocol
  import opened Invariant
  import opened Frames
  import opened Safety
  import BundleSteps
  import Chain
  import Checks
  import Checksum
  import Theorems
  import Threads
  import VerifySteps

  /** The earliest Processed block names a bundle that is still Finalizing, and the verify thread is not past looking at it. */
  ghost predicate Waits(s: State, v: nat) {
    && IsEarliestUnverified(s.db.blocks, v)
    && var b := s.db.blocks[v].bundle;
    && b in s.db.bundles && s.db.bundles[b].status.Finalizing? && (s.ver.VIdle? || s.ver == VRead(v, b))
  }

  /** It waits for a replacement bundle, whose re-upload was given up; the process may be up or down. */
  ghost predicate VerifyStuck(s: State, v: nat) {
    Waits(s, v) && s.db.blocks[v].bundle.stamp.Some?
  }

  /** Saved blocks stay as they are and new ones are Processed: no block becomes Verified. */
  ghost predicate OnlySaves(a: BlockTable, b: BlockTable) {
    && (forall n :: n in a ==> n in b && b[n] == a[n])
    && (forall n :: n in b && n !in a ==> b[n].status.Processed?)
  }

  lemma {:induction false} IdleOnlyPicks(env: Env, s: State, a: Action, t: State)
    requires OfVerifier(a) && Next(env, s, a) == Some(t) && s.ver.VIdle?
    ensures a == Pick && t == s.(ver := t.ver) && t.ver.VRead?
    ensures IsEarliestUnverified(s.db.blocks, t.ver.v) && t.ver.b == s.db.blocks[t.ver.v].bundle
  {
  }

  lemma {:induction false} ReadingOpensOrStops(env: Env, s: State, a: Action, t: State)
    requires OfVerifier(a) && Next(env, s, a) == Some(t) && s.ver.VRead?
    ensures a == Open || a == Stop
    ensures t.db == s.db
    ensures if a == Open then t.ver == VPicked(s.ver.v, s.ver.b) && Past(s.db.bundles, s.ver.b) else t.ver.VIdle?
  {
    hide Broken;
  }

  lemma {:induction false} LookingChangesNothing(env: Env, s: State, a: Action, t: State, v: nat)
    requires OfVerifier(a) && Next(env, s, a) == Some(t) && Waits(s, v)
    ensures Waits(t, v) && t.db == s.db
  {
    hide Next;
    if s.ver.VIdle? {
      IdleOnlyPicks(env, s, a, t);
    } else {
      ReadingOpensOrStops(env, s, a, t);
    }
  }

  lemma {:induction false} CalibratedUntouched(env: Env, s: State, a: Action, t: State, b: BundleId)
    requires Inv(env, s) && OfSyncer(a) && s.up && Next(env, s, a) == Some(t) && b in s.db.bundles && b.stamp.Some?
    ensures b in t.db.bundles && t.db.bundles[b] == s.db.bundles[b]
  {
    hide Next, SyncNext;
    SyncerActs(env, s, a, t);
    BundleSteps.SyncerTable(env, s, a, t);
  }

  lemma {:induction false} SyncerLeavesStuck(env: Env, s: State, a: Action, t: State, v: nat)
    requires env.WellFormed() && Inv(env, s) && OfSyncer(a) && Next(env, s, a) == Some(t) && VerifyStuck(s, v)
    ensures VerifyStuck(t, v) && OnlySaves(s.db.blocks, t.db.blocks)
  {
    hide Next, SyncNext, SyncFrame, OnlySaves;
    assert SyncFrame(s, t) by {
      SyncerActs(env, s, a, t);
      SyncKeeps(env, s, a, t);
    }
    assert v < s.next;
    CalibratedUntouched(env, s, a, t, s.db.blocks[v].bundle) by {
      hide Inv;
      SyncFrameIsUp(s, t);
    }
    FrameLeavesStuck(s, t, v);
  }

  lemma {:induction false} SyncFrameIsUp(s: State, t: State)
    requires SyncFrame(s, t)
    ensures s.up
  {
  }

  /** A frame of the sync thread that leaves the row of the bundle alone. */
  lemma {:induction false} FrameLeavesStuck(s: State, t: State, v: nat)
    requires SyncFrame(s, t) && VerifyStuck(s, v) && v < s.next
    requires s.db.blocks[v].bundle in t.db.bundles && t.db.bundles[s.db.blocks[v].bundle] == s.db.bundles[s.db.blocks[v].bundle]
    ensures VerifyStuck(t, v) && OnlySaves(s.db.blocks, t.db.blocks)
  {
  }

  lemma {:induction false} VerifyStuckStays(env: Env, s: State, a: Action, t: State, v: nat)
    requires env.WellFormed() && Inv(env, s) && Next(env, s, a) == Some(t) && VerifyStuck(s, v)
    ensures VerifyStuck(t, v) && OnlySaves(s.db.blocks, t.db.blocks)
  {
    hide Next, Inv;
    if OfProcess(a) {
      Theorems.RestartKeepsTables(env, s, a, t);
      ProcessIdles(env, s, a, t);
    } else if OfSyncer(a) {
      SyncerLeavesStuck(env, s, a, t, v);
    } else {
      LookingChangesNothing(env, s, a, t, v);
    }
  }

  lemma {:induction false} ProcessIdles(env: Env, s: State, a: Action, t: State)
    requires OfProcess(a) && Next(env, s, a) == Some(t)
    ensures t.ver.VIdle?
  {
    hide Broken, Resume;
  }

  /** Once the verify thread is stuck, no continuation of the run ever verifies another block: not by retries, not by saving more
      slots, and not by restarts in either mode. */
  lemma {:induction false} VerifyStuckForever(env: Env, before: seq<Action>, after: seq<Action>, v: nat)
    requires env.WellFormed() && before <= after && Exec(env, before).Some? && Exec(env, after).Some?
    requires VerifyStuck(Exec(env, before).value, v)
    ensures VerifyStuck(Exec(env, after).value, v)
    ensures OnlySaves(Exec(env, before).value.db.blocks, Exec(env, after).value.db.blocks)
    decreases |after|
  {
    hide Next, VerifyStuck;
    if |before| == |after| {
      assert before == after;
    } else {
      var last := |after| - 1;
      VerifyStuckForever(env, before, after[..last], v);
      RunKeeps(env, after[..last]);
      VerifyStuckStays(env, Exec(env, after[..last]).value, after[last], Exec(env, after).value, v);
    }
  }

  /** No slot of the range before m, all of them without beacon block, waits to be verified. */
  ghost predicate NoneBefore(blocks: BlockTable, b: BundleId, m: nat) {
    forall y :: y in blocks && b.lo <= y < m ==> !blocks[y].status.Processed?
  }

  lemma {:induction false} WhileMoving(env: Env, s: State)
    requires env.WellFormed() && Reachable(env, s) && !s.torn && Moving(s.ver)
    ensures OpenFrontier(env, s.db.blocks, s.ver.b, s.ver.n) && Moved(env, s.db.blocks, s.ver.b, s.ver.nb, s.ver.n)
    ensures s.ver.nb.stamp.Some? && s.ver.nb in s.db.bundles
  {
    ReachableHolds(env, s);
  }

  lemma {:induction false} MovedSlotIsFirst(env: Env, s: State, m: nat)
    requires env.WellFormed() && Reachable(env, s) && !s.torn && Moving(s.ver)
    requires Theorems.FirstMoved(env, s.ver.b, m) && m < s.ver.n
    ensures m in s.db.blocks && s.db.blocks[m].bundle == s.ver.nb && s.ver.nb.stamp.Some? && s.ver.nb in s.db.bundles
    ensures IsEarliestUnverified(s.db.blocks, m) <==> NoneBefore(s.db.blocks, s.ver.b, m)
  {
    hide Reachable;
    WhileMoving(env, s);
  }

  /** Giving up a re-upload, by an error or a crash, after the first of its slots was moved leaves the verify thread stuck on that
      slot, exactly unless the new name was already taken by a bundle past Finalizing, or slots without beacon block before it
      are still to be verified. */
  lemma {:induction false} GivingUpSticks(env: Env, s: State, a: Action, t: State, m: nat)
    requires env.WellFormed() && Reachable(env, s) && !s.torn && Moving(s.ver)
    requires Theorems.FirstMoved(env, s.ver.b, m) && m < s.ver.n
    requires (a == Stop || a == Crash) && Next(env, s, a) == Some(t)
    ensures VerifyStuck(t, m) <==> !Past(s.db.bundles, s.ver.nb) && NoneBefore(s.db.blocks, s.ver.b, m)
  {
    hide Next, Reachable, NoneBefore;
    Theorems.StopTears(env, s, a, t);
    MovedSlotIsFirst(env, s, m);
  }

  /******* Progress *******/

  /** The verify thread alone gets from s to t. */
  ghost predicate VerifierAlone(env: Env, s: State, actions: seq<Action>, t: State)
    decreases |actions|
  {
    if actions == [] then t == s else
      && OfVerifier(actions[0]) && Next(env, s, actions[0]).Some?
      && VerifierAlone(env, Next(env, s, actions[0]).value, actions[1..], t)
  }

  predicate IsVerified(blocks: BlockTable, v: nat) {
    v in blocks && blocks[v].status.Verified?
  }

  /** The verify thread alone can get block v Verified. */
  ghost predicate CanVerify(env: Env, s: State, v: nat) {
    exists actions, t :: VerifierAlone(env, s, actions, t) && IsVerified(t.db.blocks, v)
  }

  lemma {:induction false} VerifiesAfter(env: Env, s: State, a: Action, v: nat)
    requires OfVerifier(a) && Next(env, s, a).Some? && CanVerify(env, Next(env, s, a).value, v)
    ensures CanVerify(env, s, v)
  {
    var actions, t :| VerifierAlone(env, Next(env, s, a).value, actions, t) && IsVerified(t.db.blocks, v);
    assert ([a] + actions)[1..] == actions;
    assert VerifierAlone(env, s, [a] + actions, t);
  }

  lemma {:induction false} VerifiesNow(env: Env, s: State, v: nat)
    requires IsVerified(s.db.blocks, v)
    ensures CanVerify(env, s, v)
  {
    assert VerifierAlone(env, s, [], s);
  }

  lemma {:induction false} ChecksASavedBlock(env: Env, s: State)
    requires env.WellFormed() && Reachable(env, s) && (s.ver.VPicked? || s.ver.VScratch? || s.ver.VCompare?)
    ensures s.up && s.ver.v in s.db.blocks && s.ver.b.Covers(s.ver.v)
    ensures s.db.blocks[s.ver.v].blobCount == |env.sidecars(s.ver.v)|
    ensures s.ver.VScratch? ==> Scratch(s.ver.b) in s.dirs && s.ver.b.Covers(s.ver.n) && s.ver.i <= |env.sidecars(s.ver.n)|
    ensures s.ver.VCompare? ==> Scratch(s.ver.b) in s.dirs && s.dirs[Scratch(s.ver.b)] == Expected(env, s.ver.b.lo, s.ver.b.hi)
  {
    ReachableHolds(env, s);
    if s.ver.VCompare? {
      VerifySteps.RebuildIsExact(env, s);
    }
  }

  lemma {:induction false} VerifiesByMarking(env: Env, s: State, v: nat)
    requires s.up && (s.ver.VMarkRange? || s.ver.VMarkOne?) && s.ver.v == v && v in s.db.blocks && s.ver.b.Covers(v)
    ensures CanVerify(env, s, v)
  {
    if s.ver.VMarkRange? {
      Threads.MarkingRangeIsAStep(env, s, v, s.ver.b);
      VerifiesNow(env, Next(env, s, MarkRange).value, v);
      VerifiesAfter(env, s, MarkRange, v);
    } else {
      Threads.MarkingOneIsAStep(env, s, v, s.ver.b);
      VerifiesNow(env, Next(env, s, MarkOne).value, v);
      VerifiesAfter(env, s, MarkOne, v);
    }
  }

  /** What a bundle service answers that holds the chain's blobs. */
  function TrueReplies(env: Env, v: nat): (replies: seq<Checks.Reply>)
    ensures |replies| == |env.sidecars(v)|
  {
    seq(|env.sidecars(v)|, i requires 0 <= i < |env.sidecars(v)| => Checks.Object(env.sidecars(v)[i].blob))
  }

  lemma {:induction false} TrueReplyPasses(env: Env, v: nat, i: nat, row: BlobRow)
    requires env.WellFormed() && i < |env.sidecars(v)| && IsRow(env, BlobKey(v, i), row)
    ensures Checks.CheckBlob(env.coding.sha, env.sidecars(v)[i], row, TrueReplies(env, v)[i]) == Checks.Pass
  {
    Chain.ToBlobsShape(env.eth, v, env.sidecars(v), env.txs(v));
    Chain.ToBlobsColumns(env.eth, v, env.sidecars(v), env.txs(v), i);
    assert Chain.HasIndex(env.sidecars(v)[i], i);
  }

  lemma {:induction false} TrueRepliesPass(env: Env, s: State, v: nat)
    requires env.WellFormed() && Reachable(env, s) && v in s.db.blocks
    ensures var n := |env.sidecars(v)|;
      && |RowsAt(s.db.blobs, v)| == n
      && Checks.CheckBlobs(env.coding.sha, env.sidecars(v), RowsAt(s.db.blobs, v), TrueReplies(env, v), n) == Checks.Pass
  {
    var n := |env.sidecars(v)|;
    assert env.start <= v < s.next && BlobRows(env, s.next, s.db.blobs) by { ReachableHolds(env, s); }
    RowsAtDense(s.db.blobs, v, n);
    forall i | 0 <= i < n
      ensures
        Checks.CheckBlob(env.coding.sha, env.sidecars(v)[i], RowsAt(s.db.blobs, v)[i], TrueReplies(env, v)[i]) == Checks.Pass
    {
      TrueReplyPasses(env, v, i, RowsAt(s.db.blobs, v)[i]);
    }
    Checks.PassMeansEachPasses(env.coding.sha, env.sidecars(v), RowsAt(s.db.blobs, v), TrueReplies(env, v), n);
  }

  lemma {:induction false} VerifiesOneByOne(env: Env, s: State, v: nat, b: BundleId)
    requires env.WellFormed() && Reachable(env, s) && s.ver == VPicked(v, b) && s.detailed
    ensures CanVerify(env, s, v)
  {
    hide Next, Reachable, CanVerify, RowsAt;
    ChecksASavedBlock(env, s);
    if s.db.blocks[v].blobCount == 0 {
      Threads.NoBlobsIsAStep(env, s, v, b);
      VerifiesByMarking(env, Next(env, s, NoBlobs).value, v);
      VerifiesAfter(env, s, NoBlobs, v);
    } else {
      var replies := TrueReplies(env, v);
      TrueRepliesPass(env, s, v);
      Threads.CheckingIsAStep(env, s, v, b, replies, Checks.Pass);
      VerifiesByMarking(env, Next(env, s, CheckReplies(replies)).value, v);
      VerifiesAfter(env, s, CheckReplies(replies), v);
    }
  }

  /** The encoder takes the bundle of this range. */
  ghost predicate Encodes(env: Env, b: BundleId) {
    env.WellFormed() && Checksum.HashList(env.coding, Theorems.RebuiltObject(env, b), env.segmentSize).Some?
  }

  lemma {:induction false} RowMeansBlob(env: Env, s: State, b: BundleId, k: BlobKey)
    requires env.WellFormed() && Reachable(env, s) && k in KeysBetween(s.db.blobs, b.lo, b.hi)
    ensures Expected(env, b.lo, b.hi) != map[]
  {
    assert IsRow(env, k, s.db.blobs[k]) by { ReachableHolds(env, s); }
    ExpectedHolds(env, b.lo, b.hi);
    assert k in Expected(env, b.lo, b.hi);
  }

  lemma {:induction false} VerifiesByComparing(env: Env, s: State, v: nat, b: BundleId)
    requires env.WellFormed() && Reachable(env, s) && s.ver == VCompare(v, b)
    requires KeysBetween(s.db.blobs, b.lo, b.hi) != {} && Encodes(env, b)
    ensures CanVerify(env, s, v)
  {
    hide Next, Reachable, CanVerify, Expected;
    var k :| k in KeysBetween(s.db.blobs, b.lo, b.hi);
    RowMeansBlob(env, s, b, k);
    ChecksASavedBlock(env, s);
    var hashes := Checksum.HashList(env.coding, Theorems.RebuiltObject(env, b), env.segmentSize).value;
    var onChain := Checks.Recorded(env.base64, hashes);
    Theorems.RecordedMatch(env.base64, hashes);
    Threads.ComparingIsAStep(env, s, v, b, onChain, hashes);
    VerifiesByMarking(env, Next(env, s, Compare(onChain)).value, v);
    VerifiesAfter(env, s, Compare(onChain), v);
  }

  lemma {:induction false} RewritingIsAStep(env: Env, s: State, v: nat, b: BundleId, n: nat, i: nat)
    requires s.up && s.ver == VScratch(v, b, n, i) && Scratch(b) in s.dirs && i < |env.sidecars(n)|
    ensures Next(env, s, WriteFile(Verifier)).Some?
    ensures var t := Next(env, s, WriteFile(Verifier)).value; t.db == s.db && t.ver == VScratch(v, b, n, i + 1)
  {
  }

  lemma {:induction false} VerifiesByRebuilding(env: Env, s: State, v: nat, b: BundleId)
    requires env.WellFormed() && Reachable(env, s) && s.ver.VScratch? && s.ver.v == v && s.ver.b == b
    requires KeysBetween(s.db.blobs, b.lo, b.hi) != {} && Encodes(env, b)
    ensures CanVerify(env, s, v)
    decreases b.hi - s.ver.n, |env.sidecars(s.ver.n)| - s.ver.i
  {
    hide Next, KeysBetween, Encodes, Reachable, CanVerify;
    var n, i := s.ver.n, s.ver.i;
    ChecksASavedBlock(env, s);
    var a := if i < |env.sidecars(n)| then WriteFile(Verifier) else FilesDone(Verifier);
    if i < |env.sidecars(n)| {
      RewritingIsAStep(env, s, v, b, n, i);
    } else {
      Threads.RebuiltIsAStep(env, s, v, b, n);
    }
    var t := Next(env, s, a).value;
    OneMoreStep(env, s, a, t);
    if t.ver.VScratch? {
      VerifiesByRebuilding(env, t, v, b);
    } else {
      VerifiesByComparing(env, t, v, b);
    }
    VerifiesAfter(env, s, a, v);
  }

  lemma {:induction false} VerifiesByBundle(env: Env, s: State, v: nat, b: BundleId)
    requires env.WellFormed() && Reachable(env, s) && s.ver == VPicked(v, b) && !s.detailed && Encodes(env, b)
    ensures CanVerify(env, s, v)
  {
    hide Next, Encodes, Reachable, CanVerify;
    ChecksASavedBlock(env, s);
    if KeysBetween(s.db.blobs, b.lo, b.hi) == {} {
      Threads.NothingStoredIsAStep(env, s, v, b);
      VerifiesByMarking(env, Next(env, s, NothingStored).value, v);
      VerifiesAfter(env, s, NothingStored, v);
    } else {
      Threads.RebuildingIsAStep(env, s, v, b);
      var t := Next(env, s, Rebuild).value;
      OneMoreStep(env, s, Rebuild, t);
      VerifiesByRebuilding(env, t, v, b);
      VerifiesAfter(env, s, Rebuild, v);
    }
  }

  lemma {:induction false} WaitsAlone(env: Env, s: State, actions: seq<Action>, t: State, v: nat)
    requires Waits(s, v) && VerifierAlone(env, s, actions, t)
    ensures Waits(t, v)
    decreases |actions|
  {
    hide Next, Waits;
    if actions != [] {
      var mid := Next(env, s, actions[0]).value;
      LookingChangesNothing(env, s, actions[0], mid, v);
      WaitsAlone(env, mid, actions[1..], t, v);
    }
  }

  lemma {:induction false} WaitingVerifiesNothing(env: Env, s: State, v: nat)
    requires Waits(s, v)
    ensures !CanVerify(env, s, v)
  {
    hide Next;
    forall actions, t | VerifierAlone(env, s, actions, t) ensures !IsVerified(t.db.blocks, v) {
      WaitsAlone(env, s, actions, t, v);
    }
  }

  /** In every reachable state an idle verify thread can verify the earliest Processed block by itself, in either mode, if and
      only if the bundle named on it is no longer Finalizing. */
  lemma {:induction false} VerifiesUnlessFinalizing(env: Env, s: State, v: nat)
    requires env.WellFormed() && Reachable(env, s) && s.up && s.ver.VIdle? && IsEarliestUnverified(s.db.blocks, v)
    requires s.detailed || Encodes(env, s.db.blocks[v].bundle)
    ensures CanVerify(env, s, v) <==> Past(s.db.bundles, s.db.blocks[v].bundle)
  {
    hide Next, Encodes, CanVerify;
    var b := s.db.blocks[v].bundle;
    assert b in s.db.bundles by { ReachableHolds(env, s); }
    if s.db.bundles[b].status.Finalizing? {
      WaitingVerifiesNothing(env, s, v);
    } else {
      Threads.PickingIsAStep(env, s, v);
      var t := s.(ver := VRead(v, b));
      OneMoreStep(env, s, Pick, t);
      Threads.OpeningIsAStep(env, t, v, b);
      var u := t.(ver := VPicked(v, b));
      OneMoreStep(env, t, Open, u);
      if s.detailed {
        VerifiesOneByOne(env, u, v, b);
      } else {
        VerifiesByBundle(env, u, v, b);
      }
      VerifiesAfter(env, t, Open, v);
      VerifiesAfter(env, s, Pick, v);
    }
  }
}
