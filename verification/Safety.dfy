/** The invariant holds in every state reachable by any interleaving of syncing, verifying, re-uploading, crashes and
    restarts. */
module Safety {
  import opened Types
  import opened Dao
  import opened Protocol
  import opened Invariant
  import opened Frames
  import SyncSteps
  import VerifySteps
  import ReuploadSteps

  lemma {:induction false} InitHolds(env: Env)
    ensures Inv(env, Init(env))
  {
  }

  lemma {:induction false} CrashStep(env: Env, s: State, t: State)
    requires Inv(env, s) && ProcessNext(env, s, Crash) == Some(t)
    ensures Inv(env, t)
  {
    VerifySteps.FrontierStops(env, s, t);
  }

  /** With the configured start unchanged, LoadProgressAndResume resumes the pending bundle or starts a new one at the next
      slot; the branch that skips blocks is not taken. */
  lemma {:induction false} ResumesInside(env: Env, next: nat, db: Tables, interval: nat)
    requires TablesFit(env, next, db) && 0 < interval
    ensures var (db', detail) := Resume(db, next, interval, LatestPending(db.bundles));
      && db' == db && detail.Plain() && env.start <= detail.lo <= next <= detail.hi
      && (forall b :: IsPending(db.bundles, b) ==> b == detail)
      && (if LatestPending(db.bundles).Some? then IsPending(db.bundles, detail) else detail == FirstBundle(next, interval))
  {
    if b :| IsPending(db.bundles, b) {
      assert IsLatestPending(db.bundles, b);
    }
    if LatestPending(db.bundles).Some? {
      var b := LatestPending(db.bundles).value;
      assert IsPending(db.bundles, b) && BundleFits(env, next, b, db.bundles[b]);
    }
  }

  lemma {:induction false} RestartStep(env: Env, s: State, interval: nat, detailed: bool, t: State)
    requires env.WellFormed() && Inv(env, s) && ProcessNext(env, s, Restart(interval, detailed)) == Some(t)
    ensures Inv(env, t) && t.db == s.db
  {
    SyncSteps.NextIsComputed(env, s.next, s.db.blocks);
    ResumesInside(env, s.next, s.db, interval);
    if LatestPending(s.db.bundles).Some? {
      assert BundleFits(env, s.next, t.detail, s.db.bundles[t.detail]);
    }
  }

  lemma {:induction false} SyncKeeps(env: Env, s: State, a: Action, t: State)
    requires env.WellFormed() && Inv(env, s) && OfSyncer(a) && SyncNext(env, s, a) == Some(t)
    ensures Inv(env, t) && SyncFrame(s, t)
  {
    SyncSteps.SyncStep(env, s, a, t);
    VerStable(env, s, t);
  }

  lemma {:induction false} VerifyKeeps(env: Env, s: State, a: Action, t: State)
    requires env.WellFormed() && Inv(env, s) && s.up && OfVerifier(a) && Next(env, s, a) == Some(t)
    ensures Inv(env, t) && VerFrame(s, t)
  {
    if Reuploading(s.ver) && !a.Stop? {
      ReuploadSteps.OnlyReuploadActions(env, s, a);
      ReuploadSteps.ReuploadStep(env, s, a, t);
    } else {
      VerifySteps.VerifyStep(env, s, a, t);
    }
    SyncStable(env, s, t);
  }

  lemma {:induction false} SyncerActs(env: Env, s: State, a: Action, t: State)
    requires OfSyncer(a) && Next(env, s, a) == Some(t)
    ensures SyncNext(env, s, a) == Some(t)
  {
  }

  lemma {:induction false} ActsWhileUp(env: Env, s: State, a: Action, t: State)
    requires OfVerifier(a) && Next(env, s, a) == Some(t)
    ensures s.up
  {
  }

  /** Every step keeps the invariant. */
  lemma {:induction false} StepKeeps(env: Env, s: State, a: Action, t: State)
    requires env.WellFormed() && Inv(env, s) && Next(env, s, a) == Some(t)
    ensures Inv(env, t)
  {
    hide Inv, SyncNext, VerifyNext, ReuploadNext, ProcessNext;
    if a.Crash? {
      CrashStep(env, s, t);
    } else if a.Restart? {
      RestartStep(env, s, a.interval, a.detailed, t);
    } else if OfSyncer(a) {
      SyncerActs(env, s, a, t);
      SyncKeeps(env, s, a, t);
    } else {
      ActsWhileUp(env, s, a, t);
      VerifyKeeps(env, s, a, t);
    }
  }

  /** Every run keeps the invariant. */
  lemma {:induction false} RunKeeps(env: Env, history: seq<Action>)
    requires env.WellFormed() && Exec(env, history).Some?
    ensures Inv(env, Exec(env, history).value)
    decreases |history|
  {
    if history == [] {
      InitHolds(env);
    } else {
      var last := |history| - 1;
      RunKeeps(env, history[..last]);
      StepKeeps(env, Exec(env, history[..last]).value, history[last], Exec(env, history).value);
    }
  }

  ghost predicate Reachable(env: Env, s: State) {
    exists history :: Exec(env, history) == Some(s)
  }

  lemma {:induction false} ReachableHolds(env: Env, s: State)
    requires env.WellFormed() && Reachable(env, s)
    ensures Inv(env, s)
  {
    var history :| Exec(env, history) == Some(s);
    RunKeeps(env, history);
  }

  lemma {:induction false} OneMoreStep(env: Env, s: State, a: Action, t: State)
    requires Reachable(env, s) && Next(env, s, a) == Some(t)
    ensures Reachable(env, t)
  {
    var history :| Exec(env, history) == Some(s);
    var longer := history + [a];
    assert longer[..|longer| - 1] == history;
    assert Exec(env, longer) == Some(t);
  }
}
