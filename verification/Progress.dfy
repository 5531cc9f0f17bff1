/** When the sync thread can save its next slot by itself, and a state from which nobody ever can. */
module Progress {
  import opened Types
  import opened Dao
  import opened Protocol
  import opened Invariant
  import opened Frames
  import opened Safety
  import SyncSteps
  import BundleSteps
  import Chain

  /** The bundle service holds an object for the bundle. */
  ghost predicate Stored(s: State, b: BundleId) {
    exists u :: u in s.uploads && u.b == b
  }

  /** The bundle service finds a bundle exactly if it was uploaded. */
  ghost predicate Honest(s: State, a: Action) {
    && (a.Found? ==> Stored(s, s.detail))
    && (a.UploadDir? && a.who.Syncer? ==> !Stored(s, s.detail))
  }

  /** The end of a bundle of several slots is due, but its directory is gone and it was never uploaded. */
  ghost predicate NothingToUpload(s: State, b: BundleId) {
    b.lo < b.hi == s.next && Local(b) !in s.dirs && !Stored(s, b)
  }

  predicate BeforeUpload(sync: SyncPc) {
    sync.SIdle? || sync.SFiles? || sync.SUpload?
  }

  /** The sync thread can only fail at the upload. */
  ghost predicate Blocked(s: State) {
    s.up && NothingToUpload(s, s.detail) && BeforeUpload(s.sync)
  }

  /******* Progress *******/

  /** Steps to the save when nothing fails. */
  function Left(env: Env, sync: SyncPc, next: nat): int {
    match sync
    case SIdle => 8 + |env.sidecars(next)|
    case SDir(n) => 7 + |env.sidecars(n)|
    case SRow(n) => 6 + |env.sidecars(n)|
    case SFiles(n, i) => 5 + |env.sidecars(n)| - i
    case SUpload(_) => 4
    case SRemove(_) => 3
    case SMark(_) => 2
    case SSave(_) => 1
  }

  /** There will be something to upload at the end of the bundle. */
  ghost predicate Going(s: State) {
    var ready := Local(s.detail) in s.dirs || Stored(s, s.detail);
    match s.sync
    case SIdle => !NothingToUpload(s, s.detail)
    case SRow(_) => Local(s.detail) in s.dirs
    case SFiles(n, _) => n == s.detail.hi ==> ready
    case SUpload(_) => ready
    case _ => true
  }

  /** What the thread does next when no call fails. */
  ghost function NextAction(env: Env, s: State): Action {
    var dir := Local(s.detail);
    match s.sync
    case SIdle => Begin
    case SDir(_) => MakeDir
    case SRow(_) => MakeRow(0)
    case SFiles(n, i) => if dir in s.dirs && i < |env.sidecars(n)| then WriteFile(Syncer) else FilesDone(Syncer)
    case SUpload(_) =>
      if Stored(s, s.detail) then Found
      else if dir in s.dirs && s.dirs[dir] != map[] then UploadDir(Syncer, true)
      else Refused(Syncer)
    case SRemove(_) => RemoveDir(Syncer)
    case SMark(_) => Mark(Syncer)
    case SSave(_) => Save
  }

  lemma {:induction false} Starts(env: Env, s: State)
    requires env.WellFormed() && s.up && s.sync.SIdle? && Current(env, s)
    requires NextBlockNumOrSlot(s.db.blocks, env.start) == s.next
    requires Going(s)
    ensures var next := Next(env, s, Begin);
      && next.Some? && Going(next.value) && next.value.next == s.next
      && Left(env, next.value.sync, s.next) < Left(env, s.sync, s.next)
  {
  }

  lemma {:induction false} Collects(env: Env, s: State)
    requires s.up && (s.sync.SDir? || s.sync.SRow? || s.sync.SFiles?) && SyncAt(env, s) && Going(s)
    ensures var next := Next(env, s, NextAction(env, s));
      && next.Some? && Going(next.value) && next.value.next == s.next
      && Left(env, next.value.sync, s.next) < Left(env, s.sync, s.next)
  {
  }

  lemma {:induction false} Finalizes(env: Env, s: State)
    requires s.up && (s.sync.SUpload? || s.sync.SRemove? || s.sync.SMark?) && Going(s)
    ensures Honest(s, NextAction(env, s))
    ensures var next := Next(env, s, NextAction(env, s));
      && next.Some? && Going(next.value) && next.value.next == s.next
      && Left(env, next.value.sync, s.next) < Left(env, s.sync, s.next)
  {
  }

  lemma {:induction false} Saves(env: Env, s: State)
    requires env.WellFormed() && s.up && s.sync.SSave? && SyncAt(env, s) && s.next + s.interval < UINT64_LIMIT
    ensures Next(env, s, Save).Some? && Next(env, s, Save).value.next == s.next + 1
  {
    Chain.ToBlobsShape(env.eth, s.sync.n, env.sidecars(s.sync.n), env.txs(s.sync.n));
  }

  /** With something to upload the next action is possible, and brings the save nearer. */
  lemma {:induction false} OneStepNearer(env: Env, s: State) returns (t: State)
    requires env.WellFormed() && Reachable(env, s) && s.up && Going(s) && s.next + s.interval < UINT64_LIMIT
    ensures Honest(s, NextAction(env, s)) && OfSyncer(NextAction(env, s)) && Next(env, s, NextAction(env, s)) == Some(t)
    ensures t.next == s.next + 1 || (t.next == s.next && Going(t) && Left(env, t.sync, t.next) < Left(env, s.sync, s.next))
  {
    assert SyncAt(env, s) && Current(env, s) && NextBlockNumOrSlot(s.db.blocks, env.start) == s.next by {
      ReachableHolds(env, s);
      SyncSteps.NextIsComputed(env, s.next, s.db.blocks);
    }
    if s.sync.SIdle? {
      Starts(env, s);
    } else if s.sync.SDir? || s.sync.SRow? || s.sync.SFiles? {
      Collects(env, s);
    } else if s.sync.SSave? {
      Saves(env, s);
    } else {
      Finalizes(env, s);
    }
    t := Next(env, s, NextAction(env, s)).value;
  }

  /** The sync thread alone gets from s to t. */
  ghost predicate Alone(env: Env, s: State, actions: seq<Action>, t: State)
    decreases |actions|
  {
    if actions == [] then t == s else
      && OfSyncer(actions[0]) && Honest(s, actions[0]) && Next(env, s, actions[0]).Some?
      && Alone(env, Next(env, s, actions[0]).value, actions[1..], t)
  }

  /** The sync thread alone can save the next slot. */
  ghost predicate CanSave(env: Env, s: State) {
    exists actions, t :: Alone(env, s, actions, t) && t.next == s.next + 1
  }

  lemma {:induction false} OneMoreAction(env: Env, s: State, a: Action, mid: State, actions: seq<Action>, t: State)
    requires OfSyncer(a) && Honest(s, a) && Next(env, s, a) == Some(mid) && Alone(env, mid, actions, t)
    ensures Alone(env, s, [a] + actions, t)
  {
    assert ([a] + actions)[1..] == actions;
  }

  lemma {:induction false} IntervalStays(env: Env, s: State, a: Action, t: State)
    requires OfSyncer(a) && Next(env, s, a) == Some(t)
    ensures t.interval == s.interval && t.up
  {
  }

  lemma {:induction false} GoesOnToSave(env: Env, s: State) returns (actions: seq<Action>, t: State)
    requires env.WellFormed() && Reachable(env, s) && s.up && Going(s) && s.next + s.interval < UINT64_LIMIT
    ensures Alone(env, s, actions, t) && t.next == s.next + 1
    decreases Left(env, s.sync, s.next)
  {
    hide Next, Exec, Going, NextAction;
    var a := NextAction(env, s);
    var mid := OneStepNearer(env, s);
    IntervalStays(env, s, a, mid);
    if mid.next == s.next + 1 {
      assert Alone(env, mid, [], mid);
      actions, t := [a], mid;
      OneMoreAction(env, s, a, mid, [], mid);
      assert [a] + [] == [a];
    } else {
      OneMoreStep(env, s, a, mid);
      LeftIsPositive(env, s);
      var rest;
      rest, t := GoesOnToSave(env, mid);
      OneMoreAction(env, s, a, mid, rest, t);
      actions := [a] + rest;
    }
  }

  lemma {:induction false} LeftIsPositive(env: Env, s: State)
    requires env.WellFormed() && Reachable(env, s)
    ensures Left(env, s.sync, s.next) > 0
  {
    assert SyncAt(env, s) by { ReachableHolds(env, s); }
  }

  /******* Where it ends *******/

  lemma {:induction false} BlockedStays(env: Env, s: State, a: Action, t: State)
    requires SyncAt(env, s) && Blocked(s) && OfSyncer(a) && Honest(s, a) && Next(env, s, a) == Some(t)
    requires NextBlockNumOrSlot(s.db.blocks, env.start) == s.next
    ensures Blocked(t) && t.next == s.next && t.detail == s.detail && t.db == s.db
  {
  }

  lemma {:induction false} BlockedAlone(env: Env, s: State, actions: seq<Action>, t: State)
    requires env.WellFormed() && Reachable(env, s) && Blocked(s) && Alone(env, s, actions, t)
    ensures t.next == s.next
    decreases |actions|
  {
    if actions != [] {
      var mid := Next(env, s, actions[0]).value;
      assert SyncAt(env, s) && NextBlockNumOrSlot(s.db.blocks, env.start) == s.next by {
        ReachableHolds(env, s);
        SyncSteps.NextIsComputed(env, s.next, s.db.blocks);
      }
      BlockedStays(env, s, actions[0], mid);
      OneMoreStep(env, s, actions[0], mid);
      BlockedAlone(env, mid, actions[1..], t);
    }
  }

  /** In every reachable state an idle sync thread can save its next slot by itself, whatever was left behind by failures and
      restarts, if and only if it is not blocked. */
  lemma {:induction false} SavesUnlessBlocked(env: Env, s: State)
    requires env.WellFormed() && Reachable(env, s) && s.up && s.sync.SIdle? && s.next + s.interval < UINT64_LIMIT
    ensures CanSave(env, s) <==> !Blocked(s)
  {
    if Blocked(s) {
      forall actions, t | Alone(env, s, actions, t) ensures t.next == s.next {
        BlockedAlone(env, s, actions, t);
      }
    } else {
      var actions, t := GoesOnToSave(env, s);
    }
  }

  /** A pending bundle in that state; the process may be up or down. */
  ghost predicate Stuck(s: State, b: BundleId) {
    IsPending(s.db.bundles, b) && NothingToUpload(s, b) && (s.up ==> BeforeUpload(s.sync))
  }

  lemma {:induction false} PendingIsPlain(env: Env, s: State, b: BundleId)
    requires TablesFit(env, s.next, s.db) && IsPending(s.db.bundles, b)
    ensures b.Plain()
  {
    assert BundleFits(env, s.next, b, s.db.bundles[b]);
  }

  lemma {:induction false} VerifierKeepsPending(env: Env, s: State, a: Action, t: State, b: BundleId)
    requires Inv(env, s) && OfVerifier(a) && s.up && Next(env, s, a) == Some(t) && IsPending(s.db.bundles, b) && b.Plain()
    ensures IsPending(t.db.bundles, b)
    ensures forall u :: u in t.uploads && u.b == b ==> u in s.uploads
  {
    hide Next, Inv;
    BundleSteps.VerifierTable(env, s, a, t);
    BundleSteps.OwnBundles(env, s);
  }

  lemma {:induction false} VerifierLeavesStuck(env: Env, s: State, a: Action, t: State, b: BundleId)
    requires env.WellFormed() && Inv(env, s) && OfVerifier(a) && s.up && Next(env, s, a) == Some(t) && Stuck(s, b)
    ensures Stuck(t, b) && t.next == s.next
  {
    PendingIsPlain(env, s, b);
    VerifierKeepsPending(env, s, a, t, b);
    VerifyKeeps(env, s, a, t);
  }

  lemma {:induction false} StuckStays(env: Env, s: State, a: Action, t: State, b: BundleId)
    requires env.WellFormed() && Inv(env, s) && Next(env, s, a) == Some(t) && Stuck(s, b) && Honest(s, a)
    ensures Stuck(t, b) && t.next == s.next
  {
    hide Broken, VerifyNext, ReuploadNext;
    if a.Crash? {
    } else if a.Restart? {
      RestartStep(env, s, a.interval, a.detailed, t);
    } else if OfSyncer(a) {
      SyncSteps.NextIsComputed(env, s.next, s.db.blocks);
      BlockedStays(env, s, a, t);
    } else {
      ActsWhileUp(env, s, a, t);
      VerifierLeavesStuck(env, s, a, t, b);
    }
  }

  /** Every action from position `from` on is honest. */
  ghost predicate HonestFrom(env: Env, history: seq<Action>, from: nat) {
    forall i :: from <= i < |history| ==> HonestAt(env, history, i)
  }

  ghost predicate HonestAt(env: Env, history: seq<Action>, i: nat)
    requires i < |history|
  {
    Exec(env, history[..i]).Some? && Honest(Exec(env, history[..i]).value, history[i])
  }

  /** Once a pending bundle is stuck, no continuation of the run ever saves another slot: not by retries, not by verifying or
      re-uploading, and not by restarts with any bundle length. */
  lemma {:induction false} StuckForever(env: Env, before: seq<Action>, after: seq<Action>, b: BundleId)
    requires env.WellFormed() && before <= after && Exec(env, before).Some? && Exec(env, after).Some?
    requires Stuck(Exec(env, before).value, b) && HonestFrom(env, after, |before|)
    ensures Stuck(Exec(env, after).value, b) && Exec(env, after).value.next == Exec(env, before).value.next
    decreases |after|
  {
    hide Next, Stuck;
    if |before| == |after| {
      assert before == after;
    } else {
      var last := |after| - 1;
      assert HonestAt(env, after, last);
      forall i | |before| <= i < last ensures HonestAt(env, after[..last], i) {
        assert HonestAt(env, after, i);
        assert after[..last][..i] == after[..i];
      }
      StuckForever(env, before, after[..last], b);
      RunKeeps(env, after[..last]);
      StuckStays(env, Exec(env, after[..last]).value, after[last], Exec(env, after).value, b);
    }
  }
}
