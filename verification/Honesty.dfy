/** With a bundle service that tells the truth about uploads, nothing gets lost between the upload and the row that says so. */
module Honesty {
  import opened Types
  import opened Dao
  import opened Protocol
  import opened Invariant
  import opened Safety
  import Archive
  import BundleSteps
  import Clients
  import ReuploadSteps
  import Progress
  import Service
  import SyncSteps
  import Theorems

  /** A bundle is reported as found only if it was uploaded, and an upload refused only if it was uploaded or is empty. */
  ghost predicate Truthful(s: State, a: Action) {
    && (a.Found? ==> Progress.Stored(s, s.detail))
    && (a.Refused? && a.who.Syncer? ==> RightlyRefused(s, s.detail))
    && (a.Refused? && a.who.Verifier? && s.ver.RUpload? ==> RightlyRefused(s, s.ver.nb))
  }

  ghost predicate RightlyRefused(s: State, b: BundleId) {
    Progress.Stored(s, b) || (Local(b) in s.dirs && s.dirs[Local(b)] == map[])
  }

  /** The bundle was uploaded, or its range has no blob. */
  ghost predicate Kept(env: Env, s: State, b: BundleId) {
    Progress.Stored(s, b) || Expected(env, b.lo, b.hi) == map[]
  }

  /** No bundle is past Finalizing, or about to be marked, without having been uploaded. */
  ghost predicate Safe(env: Env, s: State) {
    && (forall b :: Past(s.db.bundles, b) ==> Kept(env, s, b))
    && (s.sync.SRemove? || s.sync.SMark? ==> Kept(env, s, s.detail))
    && (s.ver.RRemove? || s.ver.RMark? ==> Kept(env, s, s.ver.nb))
  }

  lemma {:induction false} KeptStays(env: Env, s: State, t: State, b: BundleId)
    requires s.uploads <= t.uploads && Kept(env, s, b)
    ensures Kept(env, t, b)
  {
  }

  /** How the sync thread gets to removing the directory and marking the row. */
  lemma {:induction false} SyncerReaches(env: Env, s: State, a: Action, t: State)
    requires OfSyncer(a) && SyncNext(env, s, a) == Some(t)
    ensures t.ver == s.ver
    ensures t.sync.SRemove? || t.sync.SMark? ==> t.detail == s.detail
    ensures t.sync.SRemove? || t.sync.SMark? ==>
      || s.sync.SRemove? || s.sync.SMark? || a.Found?
      || (s.sync.SUpload? && (a.UploadDir? || a.Refused?))
  {
  }

  lemma {:induction false} SyncerKept(env: Env, s: State, a: Action, t: State)
    requires env.WellFormed() && Inv(env, s) && OfSyncer(a) && SyncNext(env, s, a) == Some(t) && Truthful(s, a) && Safe(env, s)
    requires t.sync.SRemove? || t.sync.SMark?
    ensures Kept(env, t, t.detail)
  {
    hide SyncNext, Inv, Expected;
    SyncerReaches(env, s, a, t);
    BundleSteps.SyncerUploads(env, s, a, t);
    if a.UploadDir? {
      assert Upload(s.detail, s.dirs[Local(s.detail)]) in t.uploads;
    } else if a.Refused? && !Progress.Stored(s, s.detail) && s.sync.SUpload? {
      ExactWhenUploading(env, s);
    }
  }

  lemma {:induction false} ExactWhenUploading(env: Env, s: State)
    requires env.WellFormed() && Inv(env, s) && s.sync.SUpload? && Local(s.detail) in s.dirs
    ensures s.dirs[Local(s.detail)] == Expected(env, s.detail.lo, s.detail.hi)
  {
    SyncSteps.UploadIsExact(env, s);
  }

  /** A bundle past Finalizing after a step of the sync thread was so before, or has just been marked. */
  lemma {:induction false} SyncerPasts(s: State, a: Action, b: BundleId)
    requires Past(BundleSteps.SyncerBundles(s, a), b)
    ensures Past(s.db.bundles, b) || (a.Mark? && b == s.detail)
  {
  }

  lemma {:induction false} SyncerStaysSafe(env: Env, s: State, a: Action, t: State)
    requires env.WellFormed() && Inv(env, s) && OfSyncer(a) && Next(env, s, a) == Some(t) && Truthful(s, a) && Safe(env, s)
    ensures Safe(env, t)
  {
    hide Next, SyncNext, Inv, Kept, Truthful, Past;
    SyncerActs(env, s, a, t);
    SyncerReaches(env, s, a, t);
    BundleSteps.SyncerTable(env, s, a, t);
    Archive.SyncerOnlyUploads(env, s, a, t);
    if t.sync.SRemove? || t.sync.SMark? {
      SyncerKept(env, s, a, t);
    }
    if s.ver.RRemove? || s.ver.RMark? {
      KeptStays(env, s, t, s.ver.nb);
    }
    forall b | Past(t.db.bundles, b) ensures Kept(env, t, b) {
      SyncerPasts(s, a, b);
      KeptStays(env, s, t, b);
    }
  }

  /** How the verify thread gets to removing the new directory and marking the new row. */
  lemma {:induction false} ReuploadReaches(env: Env, s: State, a: Action, t: State)
    requires OfVerifier(a) && ReuploadNext(env, s, a) == Some(t) && (t.ver.RRemove? || t.ver.RMark?)
    ensures t.up == s.up && t.ver.nb == s.ver.nb
    ensures (s.ver.RRemove? && t.ver.RMark?) || (s.ver.RUpload? && t.ver.RRemove? && (a.UploadDir? || a.Refused?))
  {
    hide SaveBlockAndBlob, Broken;
  }

  lemma {:induction false} ChecksReachNoMark(env: Env, s: State, a: Action, t: State)
    requires VerifyNext(env, s, a) == Some(t)
    ensures !t.ver.RRemove? && !t.ver.RMark?
  {
    hide Broken;
  }

  lemma {:induction false} VerifierReaches(env: Env, s: State, a: Action, t: State)
    requires OfVerifier(a) && Next(env, s, a) == Some(t)
    ensures t.ver.RRemove? || t.ver.RMark? ==> ReuploadNext(env, s, a) == Some(t)
  {
    hide ReuploadNext, VerifyNext;
    if !(Reuploading(s.ver) && !a.Stop?) {
      ChecksReachNoMark(env, s, a, t);
    }
  }

  lemma {:induction false} VerifierKept(env: Env, s: State, a: Action, t: State)
    requires Inv(env, s) && OfVerifier(a) && s.up && Next(env, s, a) == Some(t) && Truthful(s, a) && Safe(env, s)
    requires t.ver.RRemove? || t.ver.RMark?
    ensures Kept(env, t, t.ver.nb)
  {
    hide Next, ReuploadNext, Inv, Expected;
    VerifierReaches(env, s, a, t);
    ReuploadReaches(env, s, a, t);
    BundleSteps.VerifierTable(env, s, a, t);
    if a.UploadDir? {
      assert Upload(s.ver.nb, s.dirs[Local(s.ver.nb)]) in t.uploads;
    } else if a.Refused? && s.ver.RUpload? {
      ExactWhenReuploading(env, s);
    }
  }

  lemma {:induction false} ExactWhenReuploading(env: Env, s: State)
    requires Inv(env, s) && s.ver.RUpload?
    ensures Local(s.ver.nb) in s.dirs && s.dirs[Local(s.ver.nb)] == Expected(env, s.ver.nb.lo, s.ver.nb.hi)
  {
    ReuploadSteps.NewUploadIsExact(env, s);
  }

  lemma {:induction false} VerifierPasts(s: State, a: Action, b: BundleId)
    requires Past(BundleSteps.VerifierBundles(s, a), b)
    ensures || Past(s.db.bundles, b) || ((s.ver.VSeal? || s.ver.RDeprecate?) && b == s.ver.b) || (s.ver.RMark? && b == s.ver.nb)
  {
  }

  lemma {:induction false} VerifierStaysSafe(env: Env, s: State, a: Action, t: State)
    requires env.WellFormed() && Inv(env, s) && OfVerifier(a) && Next(env, s, a) == Some(t) && Truthful(s, a) && Safe(env, s)
    ensures Safe(env, t)
  {
    hide Next, Inv, Kept, Truthful, Past, BundleSteps.VerifierBundles;
    ActsWhileUp(env, s, a, t);
    assert t.sync == s.sync && t.detail == s.detail by { VerifyKeeps(env, s, a, t); }
    BundleSteps.VerifierTable(env, s, a, t);
    BundleSteps.OwnBundles(env, s);
    Archive.VerifierOnlyUploads(env, s, a, t);
    if t.ver.RRemove? || t.ver.RMark? {
      VerifierKept(env, s, a, t);
    }
    if s.sync.SRemove? || s.sync.SMark? {
      KeptStays(env, s, t, s.detail);
    }
    forall b | Past(t.db.bundles, b) ensures Kept(env, t, b) {
      VerifierPasts(s, a, b);
      KeptStays(env, s, t, b);
    }
  }

  lemma {:induction false} ProcessStaysSafe(env: Env, s: State, a: Action, t: State)
    requires env.WellFormed() && Inv(env, s) && OfProcess(a) && Next(env, s, a) == Some(t) && Safe(env, s)
    ensures Safe(env, t)
  {
    hide Inv, Kept;
    Theorems.RestartKeepsTables(env, s, a, t);
    Archive.ProcessKeeps(env, s, a, t);
    ThreadsIdle(env, s, a, t);
    forall b | Past(t.db.bundles, b) ensures Kept(env, t, b) {
      KeptStays(env, s, t, b);
    }
  }

  lemma {:induction false} ThreadsIdle(env: Env, s: State, a: Action, t: State)
    requires OfProcess(a) && Next(env, s, a) == Some(t)
    ensures t.sync.SIdle? && t.ver.VIdle?
  {
    hide Broken, Resume;
  }

  /** Every action of the run is truthful. */
  ghost predicate HonestRun(env: Env, history: seq<Action>) {
    forall i :: 0 <= i < |history| ==> TruthfulAt(env, history, i)
  }

  ghost predicate TruthfulAt(env: Env, history: seq<Action>, i: nat)
    requires i < |history|
  {
    Exec(env, history[..i]).Some? && Truthful(Exec(env, history[..i]).value, history[i])
  }

  lemma {:induction false} HonestRunIsSafe(env: Env, history: seq<Action>)
    requires env.WellFormed() && Exec(env, history).Some? && HonestRun(env, history)
    ensures Safe(env, Exec(env, history).value)
    decreases |history|
  {
    hide Next, Safe, Truthful;
    if history == [] {
      NothingYet(env);
    } else {
      var last := |history| - 1;
      assert TruthfulAt(env, history, last);
      forall i | 0 <= i < last ensures TruthfulAt(env, history[..last], i) {
        assert TruthfulAt(env, history, i);
        assert history[..last][..i] == history[..i];
      }
      HonestRunIsSafe(env, history[..last]);
      RunKeeps(env, history[..last]);
      var s, t := Exec(env, history[..last]).value, Exec(env, history).value;
      if OfProcess(history[last]) {
        ProcessStaysSafe(env, s, history[last], t);
      } else if OfSyncer(history[last]) {
        SyncerStaysSafe(env, s, history[last], t);
      } else {
        VerifierStaysSafe(env, s, history[last], t);
      }
    }
  }

  lemma {:induction false} NothingYet(env: Env)
    ensures Safe(env, Init(env))
  {
  }

  /** In an honest run a bundle that left Finalizing was uploaded, unless its range has no blob, whatever failed, crashed or was
      replaced in between. */
  lemma {:induction false} NothingIsLost(env: Env, history: seq<Action>, b: BundleId)
    requires env.WellFormed() && Exec(env, history).Some? && HonestRun(env, history)
    requires Past(Exec(env, history).value.db.bundles, b) && Expected(env, b.lo, b.hi) != map[]
    ensures exists u :: u in Exec(env, history).value.uploads && u.b == b && u.content == Expected(env, b.lo, b.hi)
  {
    hide Exec, Expected;
    HonestRunIsSafe(env, history);
    var s := Exec(env, history).value;
    assert Progress.Stored(s, b);
    var u :| u in s.uploads && u.b == b;
    assert Uploaded(env, s.uploads) by { RunKeeps(env, history); }
  }

  lemma {:induction false} EmptyRange(env: Env, lo: nat, hi: nat, n: nat)
    requires Expected(env, lo, hi) == map[] && lo <= n <= hi
    ensures env.sidecars(n) == []
  {
    ExpectedHolds(env, lo, hi);
    assert BlobKey(n, 0) !in Expected(env, lo, hi);
  }

  /** From the chain to the client: in an honest run every saved slot whose bundle left Finalizing is served with exactly the
      chain's sidecars and blobs, if the bundle service holds what was uploaded. */
  lemma {:induction false} HonestArchiveServes(env: Env, history: seq<Action>, objects: Clients.Objects, n: nat)
    requires env.WellFormed() && Exec(env, history).Some? && HonestRun(env, history)
    requires var s := Exec(env, history).value;
      n in s.db.blocks && Past(s.db.bundles, s.db.blocks[n].bundle) && Archive.Complete(objects, s.uploads)
    ensures var answer := Service.Direct(env.eth, objects, Exec(env, history).value.db, n, []);
      answer.Served? && Archive.IsTheChain(env, n, answer.views)
  {
    hide Exec, Expected, Archive.Complete, Archive.ServesSidecar, Service.Direct;
    var s := Exec(env, history).value;
    var b := s.db.blocks[n].bundle;
    assert b.Covers(n) by { Theorems.NamesCoverSlots(env, s, n); }
    if Expected(env, b.lo, b.hi) == map[] {
      EmptyRange(env, b.lo, b.hi, n);
      Archive.ServesWhatIsStored(env, objects, s, n);
    } else {
      NothingIsLost(env, history, b);
      var u :| u in s.uploads && u.b == b && u.content == Expected(env, b.lo, b.hi);
      Archive.ServesTheChain(env, objects, s, n, u);
    }
  }

  /******* One action more *******/

  /** The names of what was uploaded. */
  function NamesOf(uploads: set<Upload>): set<BundleId> {
    set u | u in uploads :: u.b
  }

  lemma {:induction false} StoredIsNamed(s: State, b: BundleId)
    ensures Progress.Stored(s, b) <==> b in NamesOf(s.uploads)
  {
  }

  lemma {:induction false} NamesGrow(uploads: set<Upload>, u: Upload)
    ensures NamesOf(uploads + {u}) == NamesOf(uploads) + {u.b}
  {
    var more := uploads + {u};
    forall b | b in NamesOf(uploads) + {u.b} ensures b in NamesOf(more) {
      if b == u.b {
        assert u in more;
      } else {
        var w :| w in uploads && w.b == b;
        assert w in more;
      }
    }
  }

  lemma {:induction false} HonestGrows(env: Env, history: seq<Action>, s: State, a: Action)
    requires HonestRun(env, history) && Exec(env, history) == Some(s) && Truthful(s, a)
    ensures HonestRun(env, history + [a])
  {
    hide Exec, Truthful;
    var longer := history + [a];
    forall i | 0 <= i < |longer| ensures TruthfulAt(env, longer, i) {
      if i < |history| {
        assert longer[..i] == history[..i];
        assert TruthfulAt(env, history, i);
      } else {
        assert longer[..i] == history;
      }
    }
  }
}
