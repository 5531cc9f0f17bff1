/** What one thread may change without the other noticing. */
module Frames {
  import opened Types
  import opened Dao
  import opened Protocol
  import opened Invariant

  /** Stored blob rows stay as they are; new ones belong to slots from `next` on. */
  ghost predicate BlobsGrow(before: BlobTable, after: BlobTable, next: nat) {
    && (forall k :: k in before ==> k in after && after[k] == before[k])
    && (forall k :: k in after ==> k in before || next <= k.slot)
  }

  /** Rows of a saved slot are not touched when rows of later slots are added. */
  lemma {:induction false} RowsStay(before: BlobTable, after: BlobTable, next: nat, n: nat)
    requires BlobsGrow(before, after, next) && n < next
    ensures RowsAt(after, n) == RowsAt(before, n)
  {
    assert KeysAt(after, n) == KeysAt(before, n);
    var order := InOrder(KeysAt(before, n), n);
    assert forall i :: 0 <= i < |order| ==> order[i] in order && order[i] in before;
  }

  /** Steps of the sync thread add blocks at the end, move no bundle back to Finalizing and leave the verifier's directories
      and the verifier's own state alone. */
  ghost predicate SyncFrame(s: State, t: State) {
    && s.up && t.up && t.ver == s.ver && t.detailed == s.detailed && t.before == s.before && t.torn == s.torn
    && t.evidence == s.evidence && t.runStart == s.runStart && s.next <= t.next
    && (forall n :: n in s.db.blocks ==> n in t.db.blocks && t.db.blocks[n] == s.db.blocks[n])
    && (forall n :: n in t.db.blocks ==> n in s.db.blocks || (s.next <= n && t.db.blocks[n].status.Processed?))
    && BlobsGrow(s.db.blobs, t.db.blobs, s.next)
    && (forall b :: b in s.db.bundles ==> b in t.db.bundles && t.db.bundles[b].created == s.db.bundles[b].created)
    && (forall b :: Past(s.db.bundles, b) ==> Past(t.db.bundles, b))
    && (forall d: DirId :: d.Scratch? || d.b.stamp.Some? ==>
          (d in s.dirs <==> d in t.dirs) && (d in s.dirs ==> t.dirs[d] == s.dirs[d]))
  }

  /** Steps of the verify thread change no slot, leave the pending bundle and the plain upload directories alone and do not
      touch the sync thread's state. */
  ghost predicate VerFrame(s: State, t: State) {
    && s.up && t.up && t.sync == s.sync && t.detail == s.detail && t.interval == s.interval && t.detailed == s.detailed
    && t.next == s.next && t.runStart == s.runStart && t.tiles == s.tiles && t.db.blobs == s.db.blobs
    && (forall n :: n in s.db.blocks <==> n in t.db.blocks)
    && (forall b :: b in s.db.bundles ==> b in t.db.bundles)
    && (forall b :: Past(s.db.bundles, b) ==> Past(t.db.bundles, b))
    && (forall b :: IsPending(t.db.bundles, b) ==> IsPending(s.db.bundles, b))
    && (forall b: BundleId :: b.Plain() ==>
          (Local(b) in s.dirs <==> Local(b) in t.dirs) && (Local(b) in s.dirs ==> t.dirs[Local(b)] == s.dirs[Local(b)]))
  }

  lemma {:induction false} PickedStable(env: Env, s: State, t: State, v: nat, b: BundleId)
    requires SyncFrame(s, t) && Slots(env, s.next, s.db.blocks)
    ensures Reading(s.db, v, b) ==> Reading(t.db, v, b)
    ensures Picked(s.db, v, b) ==> Picked(t.db, v, b)
  {
  }

  lemma {:induction false} CollectedStable(env: Env, s: State, t: State, d: DirId, lo: nat, n: nat, i: nat)
    requires SyncFrame(s, t) && (d.Scratch? || d.b.stamp.Some?) && Collected(env, s, d, lo, n, i)
    ensures Collected(env, t, d, lo, n, i)
  {
    assert t.dirs[d] == s.dirs[d];
  }

  lemma {:induction false} MovedStable(env: Env, s: State, t: State, b: BundleId, nb: BundleId, n: nat)
    requires SyncFrame(s, t)
    ensures Preserved(env, s.before, s.db, b, n) ==> Preserved(env, t.before, t.db, b, n)
    ensures MovedTo(env, s, b, nb, n) ==> MovedTo(env, t, b, nb, n)
  {
  }

  lemma {:induction false} CheckingStable(env: Env, s: State, t: State)
    requires SyncFrame(s, t) && Slots(env, s.next, s.db.blocks) && VerAt(env, s)
    requires
      || s.ver.VIdle? || s.ver.VRead? || s.ver.VPicked? || s.ver.VMarkRange? || s.ver.VMarkOne? || s.ver.VSeal? || s.ver.VLeave?
      || s.ver.RDeprecate?
    ensures VerAt(env, t)
  {
    if !s.ver.VIdle? {
      PickedStable(env, s, t, s.ver.v, s.ver.b);
    }
  }

  lemma {:induction false} RebuildStable(env: Env, s: State, t: State)
    requires SyncFrame(s, t) && Slots(env, s.next, s.db.blocks) && VerAt(env, s)
    requires s.ver.VScratch? || s.ver.VCompare?
    ensures VerAt(env, t)
  {
    var b := s.ver.b;
    PickedStable(env, s, t, s.ver.v, b);
    if s.ver.VScratch? {
      CollectedStable(env, s, t, Scratch(b), b.lo, s.ver.n, s.ver.i);
    } else {
      CollectedStable(env, s, t, Scratch(b), b.lo, b.hi + 1, 0);
    }
  }

  lemma {:induction false} ReplaceStable(env: Env, s: State, t: State)
    requires SyncFrame(s, t) && Slots(env, s.next, s.db.blocks) && VerAt(env, s)
    requires s.ver.RDir? || s.ver.RRow?
    ensures VerAt(env, t)
  {
    PickedStable(env, s, t, s.ver.v, s.ver.b);
    MovedStable(env, s, t, s.ver.b, s.ver.nb, s.ver.b.lo);
    assert s.ver.RRow? ==> Local(s.ver.nb) in t.dirs;
  }

  lemma {:induction false} MovingStable(env: Env, s: State, t: State)
    requires SyncFrame(s, t) && Slots(env, s.next, s.db.blocks) && VerAt(env, s)
    requires s.ver.RFiles? || s.ver.RSave?
    ensures VerAt(env, t)
  {
    var b, nb, n := s.ver.b, s.ver.nb, s.ver.n;
    MovedStable(env, s, t, b, nb, n);
    CollectedStable(env, s, t, Local(nb), b.lo, n, if s.ver.RFiles? then s.ver.i else |env.sidecars(n)|);
  }

  lemma {:induction false} FinishingStable(env: Env, s: State, t: State)
    requires SyncFrame(s, t) && Slots(env, s.next, s.db.blocks) && VerAt(env, s)
    requires s.ver.RUpload? || s.ver.RRemove? || s.ver.RMark?
    ensures VerAt(env, t)
  {
    var b, nb := s.ver.b, s.ver.nb;
    MovedStable(env, s, t, b, nb, b.hi + 1);
    if s.ver.RUpload? {
      CollectedStable(env, s, t, Local(nb), b.lo, b.hi + 1, 0);
    }
  }

  /** The verify thread's position survives steps of the sync thread. */
  lemma {:induction false} VerAtStable(env: Env, s: State, t: State)
    requires SyncFrame(s, t) && Slots(env, s.next, s.db.blocks) && VerAt(env, s)
    ensures VerAt(env, t)
  {
    if s.ver.VScratch? || s.ver.VCompare? {
      RebuildStable(env, s, t);
    } else if s.ver.RDir? || s.ver.RRow? {
      ReplaceStable(env, s, t);
    } else if s.ver.RFiles? || s.ver.RSave? {
      MovingStable(env, s, t);
    } else if s.ver.RUpload? || s.ver.RRemove? || s.ver.RMark? {
      FinishingStable(env, s, t);
    } else {
      CheckingStable(env, s, t);
    }
  }

  lemma {:induction false} FrontierStable(env: Env, s: State, t: State)
    requires SyncFrame(s, t) && Slots(env, s.next, s.db.blocks) && VerAt(env, s) && FrontierAt(env, s)
    requires Bundles(env, s.next, s.db.bundles)
    ensures FrontierAt(env, t)
  {
  }

  lemma {:induction false} VerStable(env: Env, s: State, t: State)
    requires SyncFrame(s, t) && Slots(env, s.next, s.db.blocks) && Bundles(env, s.next, s.db.bundles) && VerInv(env, s)
    ensures VerInv(env, t)
  {
    VerAtStable(env, s, t);
    FrontierStable(env, s, t);
  }

  /** The sync thread's position survives steps of the verify thread. */
  lemma {:induction false} SyncStable(env: Env, s: State, t: State)
    requires VerFrame(s, t) && SyncInv(env, s)
    ensures SyncInv(env, t)
  {
  }
}
