/** What each action does to the bundle table and to the uploads. */
module BundleSteps {
  import opened Types
  import opened Dao
  import opened Protocol
  import opened Invariant
  import VerifySteps
  import ReuploadSteps

  /** The bundle table after an action of the sync thread. */
  function SyncerBundles(s: State, a: Action): BundleTable {
    match a
    case MakeRow(now) => CreateBundle(s.db, s.detail, false, now).bundles
    case Mark(_) => UpdateBundleStatus(s.db, s.detail, Finalized).bundles
    case _ => s.db.bundles
  }

  lemma {:induction false} SyncerTable(env: Env, s: State, a: Action, t: State)
    requires OfSyncer(a) && SyncNext(env, s, a) == Some(t)
    ensures t.db.bundles == SyncerBundles(s, a)
    ensures a.MakeRow? ==> s.sync.SRow?
    ensures a.Mark? ==> s.sync.SMark?
  {
    hide Written, Rows, BlockOf, NextBlockNumOrSlot, UpsertBlobs;
  }

  lemma {:induction false} SyncerUploads(env: Env, s: State, a: Action, t: State)
    requires OfSyncer(a) && SyncNext(env, s, a) == Some(t)
    ensures !a.UploadDir? ==> t.uploads == s.uploads
    ensures a.UploadDir? ==>
      && s.sync.SUpload? && Local(s.detail) in s.dirs
      && t.uploads == s.uploads + {Upload(s.detail, s.dirs[Local(s.detail)])}
  {
  }

  /** The bundle table after an action of the verify thread. */
  function VerifierBundles(s: State, a: Action): BundleTable {
    if a.Seal? && s.ver.VSeal? then UpdateBundleStatus(s.db, s.ver.b, BundleStatus.Sealed).bundles
    else if a.Deprecate? && s.ver.RDeprecate? then UpdateBundleStatus(s.db, s.ver.b, BundleStatus.Deprecated).bundles
    else if a.MakeNewRow? && s.ver.RRow? then CreateBundle(s.db, s.ver.nb, true, a.now).bundles
    else if a.Mark? && s.ver.RMark? then UpdateBundleStatus(s.db, s.ver.nb, Finalized).bundles
    else s.db.bundles
  }

  lemma {:induction false} LooksKeepBundles(env: Env, s: State, a: Action, t: State)
    requires OfVerifier(a) && VerifyNext(env, s, a) == Some(t)
    requires !a.Seal? && !a.Compare? && !a.CheckReplies? && !a.MarkRange? && !a.MarkOne?
    ensures t.db == s.db && t.uploads == s.uploads
  {
    hide Broken, Written;
  }

  lemma {:induction false} MarksKeepBundles(env: Env, s: State, a: Action, t: State)
    requires VerifyNext(env, s, a) == Some(t) && (a.MarkRange? || a.MarkOne?)
    ensures t.db.bundles == s.db.bundles && t.uploads == s.uploads
  {
  }

  lemma {:induction false} ChecksKeepBundles(env: Env, s: State, a: Action, t: State)
    requires VerifyNext(env, s, a) == Some(t) && (a.Compare? || a.CheckReplies? || a.MarkRange? || a.MarkOne?)
    ensures t.db.bundles == s.db.bundles && t.uploads == s.uploads
  {
    hide VerifyNext;
    if a.Compare? {
      VerifySteps.CompareMeans(env, s, a.onChain, t);
    } else if a.CheckReplies? {
      VerifySteps.CheckMeans(env, s, a.replies, t);
    } else {
      MarksKeepBundles(env, s, a, t);
    }
  }

  lemma {:induction false} CheckingBundles(env: Env, s: State, a: Action, t: State)
    requires OfVerifier(a) && VerifyNext(env, s, a) == Some(t) && (!Reuploading(s.ver) || a.Stop?)
    ensures t.db.bundles == VerifierBundles(s, a) && t.uploads == s.uploads
  {
    hide VerifyNext;
    if a.Seal? {
      VerifySteps.SealMeans(env, s, t);
    } else if a.Compare? || a.CheckReplies? || a.MarkRange? || a.MarkOne? {
      ChecksKeepBundles(env, s, a, t);
    } else {
      LooksKeepBundles(env, s, a, t);
    }
  }

  lemma {:induction false} SavesKeepBundles(env: Env, s: State, t: State)
    requires ReuploadNext(env, s, SaveMoved) == Some(t)
    ensures t.db.bundles == s.db.bundles && t.uploads == s.uploads
  {
    var block := ReuploadSteps.SaveMovedMeans(env, s, t);
  }

  lemma {:induction false} MovingBundles(env: Env, s: State, a: Action, t: State)
    requires OfVerifier(a) && ReuploadNext(env, s, a) == Some(t)
    ensures t.db.bundles == VerifierBundles(s, a)
    ensures !a.UploadDir? ==> t.uploads == s.uploads
    ensures a.UploadDir? ==>
      && s.ver.RUpload? && Local(s.ver.nb) in s.dirs
      && t.uploads == s.uploads + {Upload(s.ver.nb, s.dirs[Local(s.ver.nb)])}
  {
    if a.SaveMoved? {
      SavesKeepBundles(env, s, t);
    }
  }

  lemma {:induction false} VerifierTable(env: Env, s: State, a: Action, t: State)
    requires OfVerifier(a) && s.up && Next(env, s, a) == Some(t)
    ensures t.db.bundles == VerifierBundles(s, a)
    ensures !a.UploadDir? ==> t.uploads == s.uploads
    ensures a.UploadDir? ==>
      && s.ver.RUpload? && Local(s.ver.nb) in s.dirs
      && t.uploads == s.uploads + {Upload(s.ver.nb, s.dirs[Local(s.ver.nb)])}
  {
    hide VerifyNext, ReuploadNext, VerifierBundles;
    if Reuploading(s.ver) && !a.Stop? {
      MovingBundles(env, s, a, t);
    } else {
      NoUploadInChecks(env, s, a);
      CheckingBundles(env, s, a, t);
    }
  }

  lemma {:induction false} NoUploadInChecks(env: Env, s: State, a: Action)
    requires VerifyNext(env, s, a).Some?
    ensures !a.UploadDir?
  {
  }

  /** The bundles the verify thread is about to change are past Finalizing, or calibrated. */
  lemma {:induction false} OwnBundles(env: Env, s: State)
    requires Inv(env, s)
    ensures s.ver.VSeal? || s.ver.RDeprecate? ==> Past(s.db.bundles, s.ver.b)
    ensures s.ver.RRow? || s.ver.RUpload? || s.ver.RRemove? || s.ver.RMark? ==> s.ver.nb.stamp.Some?
    ensures s.ver.RMark? ==> s.ver.nb in s.db.bundles
  {
  }
}
