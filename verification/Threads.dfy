/** What one thread of the syncer relies on while the other one runs, and the steps of the protocol its code takes. */
module Threads {
  import opened Types
  import opened Dao
  import opened Protocol
  import opened Invariant
  import opened Frames
  import Safety
  import SyncSteps
  import Checks
  import Checksum

  /******* What a thread may rely on *******/

  /** Every action from position `from` on belongs to the other thread. */
  ghost predicate ByOther(who: Thread, history: seq<Action>, from: nat) {
    forall i :: from <= i < |history| ==> if who.Syncer? then OfVerifier(history[i]) else OfSyncer(history[i])
  }

  /** From position `from` on the action occurs. */
  ghost predicate Takes(history: seq<Action>, from: nat, a: Action) {
    exists i :: from <= i < |history| && history[i] == a
  }

  /** From position `from` on the thread uploaded a bundle, or was told that there is no need to. */
  ghost predicate TriedUpload(who: Thread, history: seq<Action>, from: nat) {
    Takes(history, from, UploadDir(who, true)) || Takes(history, from, Refused(who))
  }

  /** From position `from` on the sync thread took no bundle as found. */
  ghost predicate NeverFound(who: Thread, history: seq<Action>, from: nat) {
    who.Syncer? ==> forall i :: from <= i < |history| ==> !history[i].Found?
  }

  lemma {:induction false} OneMoreFindsNothing(who: Thread, from: nat, history: seq<Action>, a: Action)
    requires NeverFound(who, history, from) && !a.Found?
    ensures NeverFound(who, history + [a], from)
  {
  }

  lemma {:induction false} OneMoreTries(who: Thread, from: nat, history: seq<Action>, a: Action)
    requires from <= |history| && (a == UploadDir(who, true) || a == Refused(who))
    ensures TriedUpload(who, history + [a], from)
  {
    assert (history + [a])[|history|] == a;
  }

  lemma {:induction false} ByOtherFindsNothing(who: Thread, history: seq<Action>, from: nat)
    requires ByOther(who, history, from)
    ensures NeverFound(who, history, from)
  {
  }

  lemma {:induction false} NeverFoundJoins(who: Thread, from: nat, mid: seq<Action>, after: seq<Action>)
    requires from <= |mid| && mid <= after && NeverFound(who, mid, from) && NeverFound(who, after, |mid|)
    ensures NeverFound(who, after, from)
  {
    if who.Syncer? {
      forall i | from <= i < |after| ensures !after[i].Found? {
        if i < |mid| {
          assert after[i] == mid[i];
        }
      }
    }
  }

  lemma {:induction false} TriedUploadStays(who: Thread, from: nat, mid: seq<Action>, after: seq<Action>)
    requires mid <= after
    ensures TriedUpload(who, mid, from) ==> TriedUpload(who, after, from)
  {
    if i :| from <= i < |mid| && mid[i] == UploadDir(who, true) {
      assert after[i] == mid[i];
    }
    if i :| from <= i < |mid| && mid[i] == Refused(who) {
      assert after[i] == mid[i];
    }
  }

  lemma {:induction false} TriedUploadLater(who: Thread, from: nat, later: nat, history: seq<Action>)
    requires from <= later
    ensures TriedUpload(who, history, later) ==> TriedUpload(who, history, from)
    ensures forall a :: Takes(history, later, a) ==> Takes(history, from, a)
  {
  }

  ghost predicate InFrame(who: Thread, s: State, t: State) {
    if who.Syncer? then VerFrame(s, t) else SyncFrame(s, t)
  }

  lemma {:induction false} FramesCompose(who: Thread, s: State, mid: State, t: State)
    requires InFrame(who, s, mid) && InFrame(who, mid, t)
    ensures InFrame(who, s, t)
  {
  }

  lemma {:induction false} OtherStep(env: Env, who: Thread, s: State, a: Action, t: State)
    requires env.WellFormed() && Inv(env, s) && s.up && Next(env, s, a) == Some(t)
    requires if who.Syncer? then OfVerifier(a) else OfSyncer(a)
    ensures InFrame(who, s, t)
  {
    if who.Syncer? {
      Safety.VerifyKeeps(env, s, a, t);
    } else {
      Safety.SyncKeeps(env, s, a, t);
    }
  }

  /** What belongs to one thread alone: its position, and the slot and bundle the sync thread works on. */
  datatype Place = AtSync(sync: SyncPc, detail: BundleId, next: nat) | AtVer(ver: VerPc)

  function PlaceOf(who: Thread, s: State): Place {
    if who.Syncer? then AtSync(s.sync, s.detail, s.next) else AtVer(s.ver)
  }

  /** The thread is in its file loop for slot n, with i files written to directory d. */
  predicate Writes(at: Place, d: DirId, n: nat, i: nat) {
    match at
    case AtSync(sync, detail, _) => sync == SFiles(n, i) && d == Local(detail)
    case AtVer(VScratch(_, b, m, j)) => m == n && j == i && d == Scratch(b)
    case AtVer(RFiles(_, _, nb, m, j)) => m == n && j == i && d == Local(nb)
    case _ => false
  }

  /** The same place in the file loop, with i files written. */
  function AtFile(at: Place, i: nat): Place {
    match at
    case AtSync(SFiles(n, _), detail, next) => AtSync(SFiles(n, i), detail, next)
    case AtVer(VScratch(v, b, n, _)) => AtVer(VScratch(v, b, n, i))
    case AtVer(RFiles(v, b, nb, n, _)) => AtVer(RFiles(v, b, nb, n, i))
    case _ => at
  }

  /** Directories the other thread leaves alone. */
  ghost predicate Owns(who: Thread, d: DirId) {
    if who.Syncer? then d.Local? && d.b.Plain() else d.Scratch? || d.b.stamp.Some?
  }

  lemma {:induction false} LastStep(env: Env, history: seq<Action>)
    requires env.WellFormed() && history != [] && Exec(env, history).Some?
    ensures var last := |history| - 1;
      && Exec(env, history[..last]).Some? && Inv(env, Exec(env, history[..last]).value)
      && Next(env, Exec(env, history[..last]).value, history[last]) == Exec(env, history)
  {
    Safety.RunKeeps(env, history[..|history| - 1]);
  }

  lemma {:induction false} FramesAreReflexive(who: Thread, s: State)
    requires s.up
    ensures InFrame(who, s, s) && s.up
  {
  }

  lemma {:induction false} FramesStayUp(who: Thread, s: State, t: State)
    requires InFrame(who, s, t)
    ensures t.up
  {
  }

  /** However many steps the other thread takes, it stays within its frame. */
  lemma {:induction false} OtherStaysInFrame(env: Env, who: Thread, before: seq<Action>, after: seq<Action>)
    requires env.WellFormed() && before <= after && ByOther(who, after, |before|)
    requires Exec(env, before).Some? && Exec(env, before).value.up && Exec(env, after).Some?
    ensures InFrame(who, Exec(env, before).value, Exec(env, after).value)
    decreases |after|
  {
    hide Exec, Next, InFrame, OfVerifier, OfSyncer;
    var s, t := Exec(env, before).value, Exec(env, after).value;
    if |before| == |after| {
      assert before == after;
      FramesAreReflexive(who, s);
    } else {
      var last := |after| - 1;
      assert ByOther(who, after[..last], |before|);
      LastStep(env, after);
      var mid := Exec(env, after[..last]).value;
      OtherStaysInFrame(env, who, before, after[..last]);
      FramesStayUp(who, s, mid);
      OtherStep(env, who, mid, after[last], t);
      FramesCompose(who, s, mid, t);
    }
  }

  ghost predicate BlocksKept(before: BlockTable, after: BlockTable) {
    forall n :: n in before ==> n in after && after[n] == before[n]
  }

  ghost predicate CreatedKept(before: BundleTable, after: BundleTable) {
    forall b :: b in before ==> b in after && after[b].created == before[b].created
  }

  /** Rows a verify step has read stay as they are while the sync thread runs. */
  lemma {:induction false} SyncThreadOnlyAdds(env: Env, before: seq<Action>, after: seq<Action>)
    requires env.WellFormed() && before <= after && ByOther(Verifier, after, |before|)
    requires Exec(env, before).Some? && Exec(env, before).value.up && Exec(env, after).Some?
    ensures var s, t := Exec(env, before).value, Exec(env, after).value;
      && BlocksKept(s.db.blocks, t.db.blocks) && BlobsGrow(s.db.blobs, t.db.blobs, s.next)
      && CreatedKept(s.db.bundles, t.db.bundles) && t.evidence == s.evidence
  {
    OtherStaysInFrame(env, Verifier, before, after);
  }

  /** Writing the next file of the slot is a step of the protocol in each of the three file loops. */
  lemma {:induction false} WritingIsAStep(env: Env, s: State, who: Thread, d: DirId, slot: nat, i: nat)
    requires s.up && Writes(PlaceOf(who, s), d, slot, i) && d in s.dirs && i < |env.sidecars(slot)|
    ensures Next(env, s, WriteFile(who)).Some?
    ensures var t := Next(env, s, WriteFile(who)).value;
      && t == s.(dirs := Written(env, s.dirs, d, slot, i), sync := t.sync, ver := t.ver)
      && PlaceOf(who, t) == AtFile(PlaceOf(who, s), i + 1)
  {
    if s.ver.RFiles? && who.Verifier? {
      assert Next(env, s, WriteFile(who)) == ReuploadNext(env, s, WriteFile(who));
    }
  }

  /** Where finalizing bundle b stands; phase 0 uploads, 1 removes the directory, 2 marks the row. */
  predicate Finalizes(at: Place, b: BundleId, phase: nat) {
    match at
    case AtSync(SUpload(_), detail, _) => detail == b && phase == 0
    case AtSync(SRemove(_), detail, _) => detail == b && phase == 1
    case AtSync(SMark(_), detail, _) => detail == b && phase == 2
    case AtVer(RUpload(_, _, nb)) => nb == b && phase == 0
    case AtVer(RRemove(_, _, nb)) => nb == b && phase == 1
    case AtVer(RMark(_, _, nb)) => nb == b && phase == 2
    case _ => false
  }

  /** Finalizing done, the sync thread goes on to save its slot and a re-upload is over. */
  function AfterFinalizing(at: Place): Place {
    match at
    case AtSync(SUpload(n), detail, next) => AtSync(SSave(n), detail, next)
    case AtSync(SRemove(n), detail, next) => AtSync(SSave(n), detail, next)
    case AtSync(SMark(n), detail, next) => AtSync(SSave(n), detail, next)
    case _ => AtVer(VIdle)
  }

  /** Finalizing goes on with the same slot, or with the same re-upload. */
  predicate SameWork(at: Place, next: Place) {
    && AfterFinalizing(next) == AfterFinalizing(at)
    && (at.AtVer? && next.AtVer? && !at.ver.VIdle? && !next.ver.VIdle? ==> next.ver.b == at.ver.b)
  }

  function Idle(at: Place): Place {
    match at
    case AtSync(_, detail, next) => AtSync(SIdle, detail, next)
    case AtVer(_) => AtVer(VIdle)
  }

  lemma {:induction false} UploadingIsAStep(env: Env, s: State, who: Thread, b: BundleId, reported: bool)
    requires s.up && Finalizes(PlaceOf(who, s), b, 0) && Local(b) in s.dirs
    ensures var next := Next(env, s, Refused(who));
      && next.Some? && next.value == s.(sync := next.value.sync, ver := next.value.ver)
      && Finalizes(PlaceOf(who, next.value), b, 1)
      && SameWork(PlaceOf(who, s), PlaceOf(who, next.value))
    ensures s.dirs[Local(b)] != map[] ==>
      var next := Next(env, s, UploadDir(who, reported));
      && next.Some? && next.value ==
           s.(uploads := s.uploads + {Upload(b, s.dirs[Local(b)])}, sync := next.value.sync, ver := next.value.ver)
      && if reported then PlaceOf(who, next.value) == PlaceOf(who, Next(env, s, Refused(who)).value)
         else PlaceOf(who, next.value) == Idle(PlaceOf(who, s))
  {
  }

  lemma {:induction false} MarkingIsAStep(env: Env, s: State, who: Thread, b: BundleId)
    requires s.up && Finalizes(PlaceOf(who, s), b, 2)
    ensures var next := Next(env, s, Mark(who));
      && next.Some? && next.value ==
           s.(db := UpdateBundleStatus(s.db, b, Finalized), sync := next.value.sync, ver := next.value.ver)
      && PlaceOf(who, next.value) == AfterFinalizing(PlaceOf(who, s))
  {
  }

  lemma {:induction false} SaveIsEnabled(env: Env, s: State, n: nat)
    requires s.up && s.sync == SSave(n) && Rows(env, n).Some? && n + s.interval < UINT64_LIMIT
    ensures Next(env, s, Save).Some? && SyncSteps.Saves(env, s, Next(env, s, Save).value)
  {
  }

  /** Saving the slot adds its row, leaves the other rows alone and, at the end of a bundle, starts the next one. */
  lemma {:induction false} SavingIsAStep(env: Env, history: seq<Action>, s: State, n: nat)
    requires env.WellFormed() && Exec(env, history) == Some(s) && s.up
    requires s.sync == SSave(n) && Rows(env, n).Some? && n + s.interval < UINT64_LIMIT
    ensures Next(env, s, Save).Some?
    ensures var t := Next(env, s, Save).value;
      && t == s.(db := SaveBlockAndBlob(s.db, BlockOf(env, n, s.detail), Rows(env, n).value), next := n + 1, sync := SIdle,
                 detail := if n == s.detail.hi then FirstBundle(n + 1, s.interval) else s.detail, tiles := t.tiles)
      && t.db.blocks == s.db.blocks[n := BlockOf(env, n, s.detail).(id := s.db.blockSeq)]
  {
    hide Next, Exec, Rows, Tiled, SyncDirs;
    SaveIsEnabled(env, s, n);
    assert TablesFit(env, s.next, s.db) && SyncAt(env, s) && Current(env, s) by {
      Safety.RunKeeps(env, history);
    }
    SyncSteps.SaveTables(env, s, Next(env, s, Save).value);
  }

  ghost predicate HoldsFiles(env: Env, dir: Dir, slot: nat, i: nat)
    requires i <= |env.sidecars(slot)|
  {
    forall j :: 0 <= j < i ==> BlobKey(slot, j) in dir && dir[BlobKey(slot, j)] == env.sidecars(slot)[j].blob
  }

  /** In a file loop, the files counted as written are there with the content the chain has for them. */
  lemma {:induction false} WrittenFilesAreThere(env: Env, s: State, who: Thread, d: DirId, slot: nat, i: nat)
    requires Inv(env, s) && Writes(PlaceOf(who, s), d, slot, i) && Owns(who, d) && d in s.dirs
    ensures i <= |env.sidecars(slot)| && HoldsFiles(env, s.dirs[d], slot, i)
  {
    assert Begun(s.dirs[d], slot, i) && Within(env, s.dirs[d], d.b.lo, d.b.hi);
  }

  lemma {:induction false} ByOtherJoins(who: Thread, start: nat, mid: seq<Action>, after: seq<Action>)
    requires start <= |mid| && mid <= after && ByOther(who, mid, start) && ByOther(who, after, |mid|)
    ensures ByOther(who, after, start)
  {
    forall i | start <= i < |after| ensures if who.Syncer? then OfVerifier(after[i]) else OfSyncer(after[i]) {
      if i < |mid| {
        assert after[i] == mid[i];
      }
    }
  }

  /** What the comparison of the blobs of one block leads to. */
  lemma {:induction false} CheckingIsAStep(
      env: Env, s: State, v: nat, b: BundleId, replies: seq<Checks.Reply>, outcome: Checks.Outcome)
    requires s.up && s.ver == VPicked(v, b) && HasBlobs(s, v)
    requires |RowsAt(s.db.blobs, v)| == |env.sidecars(v)| == |replies|
    requires outcome == Checks.CheckBlobs(env.coding.sha, env.sidecars(v), RowsAt(s.db.blobs, v), replies, |replies|)
    ensures outcome == Checks.Pass ==>
      Next(env, s, CheckReplies(replies)) == Some(s.(ver := VMarkOne(v, b, BlobsMatched(b, replies))))
    ensures outcome == Checks.Mismatch ==> Next(env, s, CheckReplies(replies)) == Some(s.(ver := RDeprecate(v, b)))
  {
    hide RowsAt, Checks.CheckBlobs;
  }

  /** What the comparison of the checksums of the rebuilt bundle leads to. */
  lemma {:induction false} ComparingIsAStep(env: Env, s: State, v: nat, b: BundleId, onChain: seq<string>, hashes: seq<bytes>)
    requires env.WellFormed() && s.up && s.ver == VCompare(v, b) && Scratch(b) in s.dirs && s.dirs[Scratch(b)] != map[]
    requires Checksum.HashList(env.coding, env.pack(s.dirs[Scratch(b)]), env.segmentSize) == Some(hashes)
    ensures Next(env, s, Compare(onChain)) ==
      if Checks.ChecksumsMatch(env.base64, hashes, onChain) then Some(s.(ver := VMarkRange(v, b, BundleMatched(b, onChain))))
      else Some(s.(dirs := s.dirs - {Scratch(b)}, ver := RDeprecate(v, b)))
  {
  }

  lemma {:induction false} MovingIsAStep(env: Env, s: State, v: nat, b: BundleId, nb: BundleId, bi: nat)
    requires s.up && s.ver == RSave(v, b, nb, bi) && bi in s.db.blocks && Rows(env, bi).Some?
    ensures var block := BlockOf(env, bi, nb).(id := s.db.blocks[bi].id);
      var rows := WithIds(Rows(env, bi).value, RowsAt(s.db.blobs, bi));
      var db := SaveBlockAndBlob(s.db, block, rows);
      Next(env, s, SaveMoved) ==
        Some(s.(db := db, evidence := s.evidence - {bi}, torn := TornBySlot(env, s, db.blocks), ver := Following(s.ver)))
  {
  }

  lemma {:induction false} PickingIsAStep(env: Env, s: State, v: nat)
    requires s.up && s.ver.VIdle? && IsEarliestUnverified(s.db.blocks, v)
    ensures Next(env, s, Pick) == Some(s.(ver := VRead(v, s.db.blocks[v].bundle)))
  {
    var t := Next(env, s, Pick).value;
    assert t == s.(ver := VRead(t.ver.v, s.db.blocks[t.ver.v].bundle)) && IsEarliestUnverified(s.db.blocks, t.ver.v);
    assert t.ver.v == v;
  }

  /** With at most one pending bundle, the one the query finds is the one the protocol names. */
  lemma {:induction false} PendingIsLatest(env: Env, next: nat, db: Tables, pending: Option<BundleId>)
    requires TablesFit(env, next, db)
    ensures pending.Some? && IsLatestPending(db.bundles, pending.value) ==>
      LatestPending(db.bundles) == pending && next <= pending.value.hi
    ensures (forall b :: !IsPending(db.bundles, b)) ==> LatestPending(db.bundles) == None
  {
    if pending.Some? && IsLatestPending(db.bundles, pending.value) {
      assert BundleFits(env, next, pending.value, db.bundles[pending.value]);
    }
  }

  lemma {:induction false} MarkingRangeIsAStep(env: Env, s: State, v: nat, b: BundleId)
    requires s.up && s.ver.VMarkRange? && s.ver.v == v && s.ver.b == b
    ensures var next := Next(env, s, MarkRange);
      && next.Some?
      && next.value == s.(db := UpdateBlocksStatus(s.db, b.lo, b.hi, Verified), evidence := next.value.evidence,
                          ver := VSeal(v, b, s.ver.e))
      && (v in s.db.blocks && b.Covers(v) ==> v in next.value.evidence && next.value.evidence[v] == s.ver.e)
  {
  }

  lemma {:induction false} MarkingOneIsAStep(env: Env, s: State, v: nat, b: BundleId)
    requires s.up && s.ver.VMarkOne? && s.ver.v == v && s.ver.b == b
    ensures Next(env, s, MarkOne) ==
      Some(s.(db := UpdateBlockStatus(s.db, v, Verified), evidence := s.evidence[v := s.ver.e],
              ver := if v == b.hi then VSeal(v, b, s.ver.e) else VIdle))
  {
  }

  lemma {:induction false} InsertingIsAStep(env: Env, s: State, v: nat, b: BundleId, nb: BundleId, now: int)
    requires s.up && s.ver == RRow(v, b, nb)
    ensures Next(env, s, MakeNewRow(now)) ==
      Some(s.(db := CreateBundle(s.db, nb, true, now), ver := RFiles(v, b, nb, b.lo, 0)))
  {
  }

  /** The files of a slot rebuilt, the next slot of the range follows, or the comparison. */
  lemma {:induction false} RebuiltIsAStep(env: Env, s: State, v: nat, b: BundleId, bi: nat)
    requires s.up && s.ver == VScratch(v, b, bi, |env.sidecars(bi)|)
    ensures Next(env, s, FilesDone(Verifier)) ==
      Some(s.(ver := if bi < b.hi then VScratch(v, b, bi + 1, 0) else VCompare(v, b)))
  {
  }

  lemma {:induction false} SealingIsAStep(env: Env, s: State, b: BundleId)
    requires s.up && s.ver.VSeal? && s.ver.b == b
    ensures Next(env, s, Seal) ==
      Some(s.(db := UpdateBundleStatus(s.db, b, BundleStatus.Sealed),
              ver := if s.ver.e.BundleMatched? then VLeave(s.ver.v, b) else VIdle))
  {
  }

  lemma {:induction false} RestartingIsAStep(env: Env, s: State, interval: nat, detailed: bool)
    requires !s.up && interval != 0 && NextBlockNumOrSlot(s.db.blocks, env.start) + interval < UINT64_LIMIT
    ensures var next := NextBlockNumOrSlot(s.db.blocks, env.start);
      var (db, detail) := Resume(s.db, next, interval, LatestPending(s.db.bundles));
      Next(env, s, Restart(interval, detailed)) ==
        Some(s.(db := db, up := true, detail := detail, interval := interval, detailed := detailed, sync := SIdle, ver := VIdle,
                runStart := next, tiles := [detail]))
  {
  }

  lemma {:induction false} RemovingIsAStep(env: Env, s: State, who: Thread, b: BundleId)
    requires s.up && Finalizes(PlaceOf(who, s), b, 1)
    ensures var next := Next(env, s, RemoveDir(who));
      && next.Some? && next.value == s.(dirs := s.dirs - {Local(b)}, sync := next.value.sync, ver := next.value.ver)
      && Finalizes(PlaceOf(who, next.value), b, 2) && SameWork(PlaceOf(who, s), PlaceOf(who, next.value))
  {
  }

  lemma {:induction false} BeginningIsAStep(env: Env, s: State)
    requires s.up && s.sync.SIdle?
    ensures var n := NextBlockNumOrSlot(s.db.blocks, env.start);
      Next(env, s, Begin) == Some(s.(sync := if n == s.detail.lo then SDir(n) else SFiles(n, 0)))
  {
  }

  lemma {:induction false} MakingBundleDirIsAStep(env: Env, s: State)
    requires s.up && s.sync.SDir?
    ensures Next(env, s, MakeDir) == Some(s.(dirs := Made(s.dirs, Local(s.detail)), sync := SRow(s.sync.n)))
  {
  }

  lemma {:induction false} MakingRowIsAStep(env: Env, s: State, now: int)
    requires s.up && s.sync.SRow?
    ensures Next(env, s, MakeRow(now)) == Some(s.(db := CreateBundle(s.db, s.detail, false, now), sync := SFiles(s.sync.n, 0)))
  {
  }

  /** The files of the slot written, or no directory to write to. */
  lemma {:induction false} CollectedIsAStep(env: Env, s: State, n: nat)
    requires s.up && s.sync.SFiles? && s.sync.n == n && (Local(s.detail) !in s.dirs || s.sync.i == |env.sidecars(n)|)
    ensures Next(env, s, FilesDone(Syncer)) == Some(s.(sync := if n == s.detail.hi then SUpload(n) else SSave(n)))
  {
  }

  lemma {:induction false} FoundIsAStep(env: Env, s: State)
    requires s.up && s.sync.SUpload?
    ensures Next(env, s, Found) == Some(s.(sync := SMark(s.sync.n)))
  {
  }

  lemma {:induction false} OpeningIsAStep(env: Env, s: State, v: nat, b: BundleId)
    requires s.up && s.ver == VRead(v, b) && Past(s.db.bundles, b)
    ensures Next(env, s, Open) == Some(s.(ver := VPicked(v, b)))
  {
  }

  lemma {:induction false} StoppingIsAStep(env: Env, s: State)
    requires s.up && !s.ver.VIdle?
    ensures var next := Next(env, s, Stop);
      && next.Some? && next.value == s.(dirs := next.value.dirs, ver := VIdle, torn := next.value.torn)
      && next.value.dirs == if Rebuilt(s.ver) then s.dirs - {Scratch(s.ver.b)} else s.dirs
  {
    hide Broken;
  }

  lemma {:induction false} NoBlobsIsAStep(env: Env, s: State, v: nat, b: BundleId)
    requires s.up && s.ver == VPicked(v, b) && s.detailed && v in s.db.blocks && s.db.blocks[v].blobCount == 0
    ensures Next(env, s, NoBlobs) == Some(s.(ver := VMarkOne(v, b, NoBlobsInBlock(b))))
  {
  }

  lemma {:induction false} CountOffIsAStep(env: Env, s: State, v: nat, b: BundleId)
    requires s.up && s.ver == VPicked(v, b) && HasBlobs(s, v) && |RowsAt(s.db.blobs, v)| != |env.sidecars(v)|
    ensures Next(env, s, CountOff) == Some(s.(ver := RDeprecate(v, b)))
  {
  }

  lemma {:induction false} NothingStoredIsAStep(env: Env, s: State, v: nat, b: BundleId)
    requires s.up && s.ver == VPicked(v, b) && AsksForBundle(s, v, b) && KeysBetween(s.db.blobs, b.lo, b.hi) == {}
    ensures Next(env, s, NothingStored) == Some(s.(ver := VMarkRange(v, b, NoBlobsInBundle(b, s.next))))
  {
  }

  lemma {:induction false} StaleIsAStep(env: Env, s: State, v: nat, b: BundleId, now: int)
    requires s.up && s.ver == VPicked(v, b) && AsksForBundle(s, v, b) && b in s.db.bundles
    requires s.db.bundles[b].created > 0 && now - s.db.bundles[b].created > env.threshold
    ensures Next(env, s, Stale(now)) == Some(s.(ver := RDeprecate(v, b)))
  {
  }

  lemma {:induction false} DeprecatingIsAStep(env: Env, s: State, v: nat, b: BundleId, now: int)
    requires s.up && s.ver == RDeprecate(v, b)
    ensures Next(env, s, Deprecate(now)) ==
      Some(s.(db := UpdateBundleStatus(s.db, b, BundleStatus.Deprecated), before := s.db,
              ver := RDir(v, b, b.(stamp := Some(now)))))
  {
  }

  lemma {:induction false} MakingDirIsAStep(env: Env, s: State, v: nat, b: BundleId, nb: BundleId)
    requires s.up && s.ver == RDir(v, b, nb)
    ensures Next(env, s, MakeNewDir) == Some(s.(dirs := Made(s.dirs, Local(nb)), ver := RRow(v, b, nb)))
  {
  }

  lemma {:induction false} RebuildingIsAStep(env: Env, s: State, v: nat, b: BundleId)
    requires s.up && s.ver == VPicked(v, b) && !s.detailed
    ensures Next(env, s, Rebuild) == Some(s.(dirs := Made(s.dirs, Scratch(b)), ver := VScratch(v, b, b.lo, 0)))
  {
  }

  lemma {:induction false} GivingUpIsAStep(env: Env, s: State, who: Thread)
    requires s.up && if who.Syncer? then !s.sync.SIdle? else Reuploading(s.ver)
    ensures var next := Next(env, s, if who.Syncer? then Fail else Stop);
      && next.Some? && next.value == s.(sync := next.value.sync, ver := next.value.ver, torn := next.value.torn)
      && PlaceOf(who, next.value) == Idle(PlaceOf(who, s))
  {
    hide Broken;
  }

  /** The files of a slot written, a re-upload saves its rows, or goes on when the slot has no beacon block. */
  lemma {:induction false} FilesDoneIsAStep(env: Env, s: State, v: nat, b: BundleId, nb: BundleId, bi: nat)
    requires s.up && s.ver == RFiles(v, b, nb, bi, |env.sidecars(bi)|)
    ensures var next := Next(env, s, FilesDone(Verifier));
      && next.Some? && next.value == s.(torn := next.value.torn, ver := next.value.ver)
      && next.value.ver == if env.forked(bi) then Following(s.ver) else RSave(v, b, nb, bi)
  {
  }
}
