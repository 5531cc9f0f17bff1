/** The archive behind the service: what is served for the slots of a reachable state, and what that has to do with the chain. */
module Archive {
  import opened Types
  import opened Clients
  import opened Dao
  import opened Text
  import opened Service
  import opened Protocol
  import opened Safety
  import Chain
  import Checks
  import Checksum
  import Frames
  import Invariant
  import Theorems

  /******* How the archive changes *******/

  /** In every reachable state the rows of a saved slot are numbered without gap. */
  lemma {:induction false} ArchiveIsDense(env: Env, s: State, n: nat)
    requires env.WellFormed() && Reachable(env, s) && n in s.db.blocks
    ensures KeyedBlobs(s.db.blobs) && Dense(s.db.blobs, n) && |RowsAt(s.db.blobs, n)| == |env.sidecars(n)|
    ensures forall i :: 0 <= i < |env.sidecars(n)| ==> Invariant.IsRow(env, BlobKey(n, i), RowsAt(s.db.blobs, n)[i])
  {
    assert Invariant.BlobRows(env, s.next, s.db.blobs) && BlobIds(s.db.blobs, s.db.blobSeq) && n < s.next && env.start <= n by {
      ReachableHolds(env, s);
    }
    RowsAtDense(s.db.blobs, n, |env.sidecars(n)|);
  }

  lemma {:induction false} SavedBlock(env: Env, s: State, n: nat)
    requires env.WellFormed() && Reachable(env, s)
    ensures n in s.db.blocks <==> env.start <= n < s.next
    ensures n in s.db.blocks ==> s.db.blocks[n].slot == n && s.db.blocks[n].header == HeaderAt(env, n)
  {
    ReachableHolds(env, s);
  }

  lemma {:induction false} SyncerOnlyUploads(env: Env, s: State, a: Action, t: State)
    requires OfSyncer(a) && Next(env, s, a) == Some(t)
    ensures s.uploads <= t.uploads
  {
  }

  lemma {:induction false} VerifierOnlyUploads(env: Env, s: State, a: Action, t: State)
    requires OfVerifier(a) && Next(env, s, a) == Some(t)
    ensures s.uploads <= t.uploads
  {
    hide SaveBlockAndBlob, Broken;
  }

  /** No step unsaves a slot or takes an upload back. */
  lemma {:induction false} StepOnlyAdds(env: Env, s: State, a: Action, t: State)
    requires env.WellFormed() && Invariant.Inv(env, s) && Next(env, s, a) == Some(t)
    ensures s.next <= t.next && s.uploads <= t.uploads
  {
    hide Next, Invariant.Inv;
    if OfProcess(a) {
      ProcessKeeps(env, s, a, t);
    } else if OfSyncer(a) {
      SyncerActs(env, s, a, t);
      SyncKeeps(env, s, a, t);
      SyncerOnlyUploads(env, s, a, t);
    } else {
      ActsWhileUp(env, s, a, t);
      VerifyKeeps(env, s, a, t);
      VerifierOnlyUploads(env, s, a, t);
    }
  }

  lemma {:induction false} ProcessKeeps(env: Env, s: State, a: Action, t: State)
    requires OfProcess(a) && Next(env, s, a) == Some(t)
    ensures t.next == s.next && t.uploads == s.uploads
  {
    hide Broken, Resume;
  }

  /** The run goes on from s to t. */
  ghost predicate GoesOn(env: Env, before: seq<Action>, s: State, after: seq<Action>, t: State) {
    before <= after && Exec(env, before) == Some(s) && Exec(env, after) == Some(t)
  }

  lemma {:induction false} RunOnlyAdds(env: Env, before: seq<Action>, s: State, after: seq<Action>, t: State)
    requires env.WellFormed() && GoesOn(env, before, s, after, t)
    ensures s.next <= t.next && s.uploads <= t.uploads
    decreases |after|
  {
    hide Next;
    if |before| == |after| {
      assert before == after;
    } else {
      var last := |after| - 1;
      var mid := Exec(env, after[..last]).value;
      RunOnlyAdds(env, before, s, after[..last], mid);
      RunKeeps(env, after[..last]);
      StepOnlyAdds(env, mid, after[last], t);
    }
  }

  /** Whatever the archive does in any number of steps, saving, verifying, replacing bundles or restarting: the slots saved keep
      the rows and headers that are served for them; only the bundle named on them may change. */
  lemma {:induction false} ArchiveEvolves(env: Env, before: seq<Action>, s: State, after: seq<Action>, t: State)
    requires env.WellFormed() && GoesOn(env, before, s, after, t)
    ensures Evolves(s.db, t.db)
  {
    RunOnlyAdds(env, before, s, after, t);
    forall n | n in s.db.blocks
      ensures n in t.db.blocks && t.db.blocks[n].slot == s.db.blocks[n].slot && t.db.blocks[n].header == s.db.blocks[n].header
      ensures SameRows(RowsAt(s.db.blobs, n), RowsAt(t.db.blobs, n))
    {
      SavedBlock(env, s, n);
      SavedBlock(env, t, n);
      ArchiveIsDense(env, s, n);
      ArchiveIsDense(env, t, n);
    }
  }

  /** The bundle service holds nothing that was not uploaded. */
  ghost predicate Sound(objects: Objects, uploads: set<Upload>) {
    forall b, k :: objects(b, k).Some? ==> exists u :: u in uploads && Offers(u, b, k, objects(b, k).value)
  }

  /** The bundle service holds all that was uploaded. */
  ghost predicate Complete(objects: Objects, uploads: set<Upload>) {
    forall u, k :: u in uploads && k in u.content ==> objects(u.b, k) == Some(u.content[k])
  }

  ghost predicate Offers(u: Upload, b: BundleId, k: BlobKey, text: string) {
    u.b == b && k in u.content && u.content[k] == text
  }

  /** For the server any number of steps of the archive is one change: with a bundle service that holds what was uploaded,
      objects only appear. */
  lemma {:induction false} ArchiveIsAChange(
      env: Env, before: seq<Action>, s: State, after: seq<Action>, t: State, objects: Objects, later: Objects,
      entries: map<nat, seq<View>>)
    requires env.WellFormed() && GoesOn(env, before, s, after, t)
    requires Sound(objects, s.uploads) && Complete(later, t.uploads)
    ensures Step(env.eth, Server(s.db, objects, entries), Change, Server(t.db, later, entries))
  {
    hide Evolves;
    ArchiveEvolves(env, before, s, after, t);
    RunOnlyAdds(env, before, s, after, t);
    forall b, k | objects(b, k).Some? ensures later(b, k) == objects(b, k) {
      var u :| u in s.uploads && Offers(u, b, k, objects(b, k).value);
      assert u in t.uploads;
    }
  }

  /******* What is served *******/

  /** What the chain says about its sidecar i is what is served: its own columns, hash of the transaction that owns the blob, and
      on ETH the header of the block. */
  ghost predicate ServesSidecar(env: Env, n: nat, i: nat, v: View)
    requires i < |env.sidecars(n)|
  {
    var sc, txs := env.sidecars(n)[i], env.txs(n);
    && v.index == Signed(i) && v.kzgCommitment == sc.kzgCommitment && v.kzgProof == sc.kzgProof
    && (env.eth && (forall j :: 0 <= j < |sc.inclusionProof| ==> IsItem(sc.inclusionProof[j])) ==>
          v.inclusionProof == sc.inclusionProof)
    && (!env.eth ==> v.inclusionProof == [] && v.header.None?)
    && v.txIndex == (if env.eth then 0 else sc.txIndex)
    && (forall t: nat :: Chain.Owns(txs, t, i) ==> v.txHash == txs[t].hash)
    && (Chain.PrefixCount(txs, |txs|) <= i ==> v.txHash == if env.eth then "" else sc.txHash)
    && (env.eth ==> v.header.Some? && ShowsHeader(env.header(n), n, v.header.value))
  }

  /** Roots and signature with their prefix, slot and proposer in decimal. */
  ghost predicate ShowsHeader(h: Header, n: nat, shown: SignedHeader) {
    && shown.bodyRoot == "0x" + h.bodyRoot && shown.parentRoot == "0x" + h.parentRoot && shown.stateRoot == "0x" + h.stateRoot
    && shown.signature == "0x" + h.signature && shown.slot == Decimal(n) && shown.proposerIndex == Decimal(h.proposerIndex)
  }

  lemma {:induction false} RowServesSidecar(env: Env, block: BlockRow, n: nat, i: nat, meta: BlobRow, text: string)
    requires env.WellFormed() && i < |env.sidecars(n)| && Invariant.IsRow(env, BlobKey(n, i), meta)
    requires block.slot == n && block.header == HeaderAt(env, n)
    ensures ServesSidecar(env, n, i, ViewOf(env.eth, block, meta, text)) && ViewOf(env.eth, block, meta, text).blob == text
  {
    hide JoinWithComma, CommaItems, Signed, Decimal, Invariant.IsRow;
    Theorems.RowHasColumns(env, BlobKey(n, i), meta);
    forall t: nat | Chain.Owns(env.txs(n), t, i) ensures meta.txHash == env.txs(n)[t].hash {
      assert Chain.OwnerShown(env.txs(n), t, i, meta);
    }
    if env.eth {
      CommaRoundTrip(env.sidecars(n)[i].inclusionProof);
    } else {
      SplitJoinedNothing();
    }
  }

  /** Text of the object that a saved slot's bundle holds for blob i. */
  function ObjectOf(objects: Objects, s: State, n: nat, i: nat): Option<string>
    requires n in s.db.blocks
  {
    objects(s.db.blocks[n].bundle, BlobKey(n, i))
  }

  /** A saved slot is served exactly when its bundle holds every blob; then each sidecar is served with the object stored under
      its own name and everything else as the chain has it. */
  lemma {:induction false} ServesWhatIsStored(env: Env, objects: Objects, s: State, n: nat)
    requires env.WellFormed() && Reachable(env, s) && n in s.db.blocks
    ensures var answer := Direct(env.eth, objects, s.db, n, []);
      && (answer.Served? <==> forall i: nat :: i < |env.sidecars(n)| ==> ObjectOf(objects, s, n, i).Some?)
      && (answer.Served? ==>
            && |answer.views| == |env.sidecars(n)|
            && forall i: nat :: i < |env.sidecars(n)| ==>
                 ServesSidecar(env, n, i, answer.views[i]) && Some(answer.views[i].blob) == ObjectOf(objects, s, n, i))
  {
    hide ViewOf;
    ArchiveIsDense(env, s, n);
    SavedBlock(env, s, n);
    var block, rows := s.db.blocks[n], RowsAt(s.db.blobs, n);
    ViewsMeansEach(env.eth, objects, block, rows);
    var answer := Direct(env.eth, objects, s.db, n, []);
    forall i: nat | i < |env.sidecars(n)| && answer.Served?
      ensures ServesSidecar(env, n, i, answer.views[i]) && Some(answer.views[i].blob) == ObjectOf(objects, s, n, i)
    {
      assert rows[i].key == BlobKey(n, i);
      RowServesSidecar(env, block, n, i, rows[i], ObjectOf(objects, s, n, i).value);
    }
    forall i: nat | i < |env.sidecars(n)| ensures ObjectOf(objects, s, n, i) == objects(block.bundle, rows[i].key) {
      assert rows[i].key == BlobKey(n, i);
    }
  }

  /** All sidecars of the slot in order, with the blobs of the chain. */
  ghost predicate IsTheChain(env: Env, n: nat, views: seq<View>) {
    |views| == |env.sidecars(n)| && forall i: nat :: i < |env.sidecars(n)| ==> IsSidecar(env, n, i, views[i])
  }

  ghost predicate IsSidecar(env: Env, n: nat, i: nat, v: View) {
    i < |env.sidecars(n)| && ServesSidecar(env, n, i, v) && v.blob == env.sidecars(n)[i].blob
  }

  /** What was archived is what is served: if the bundle service holds what was uploaded, a slot whose bundle was uploaded is
      served with the blobs of the chain. */
  lemma {:induction false} ServesTheChain(env: Env, objects: Objects, s: State, n: nat, u: Upload)
    requires env.WellFormed() && Reachable(env, s) && n in s.db.blocks
    requires u in s.uploads && u.b == s.db.blocks[n].bundle && Complete(objects, s.uploads)
    ensures var answer := Direct(env.eth, objects, s.db, n, []); answer.Served? && IsTheChain(env, n, answer.views)
  {
    ServesWhatIsStored(env, objects, s, n);
    Theorems.UploadsAreExact(env, s, u);
    Theorems.NamesCoverSlots(env, s, n);
    forall i: nat | i < |env.sidecars(n)| ensures ObjectOf(objects, s, n, i) == Some(env.sidecars(n)[i].blob) {
      assert BlobKey(n, i) in u.content;
    }
  }

  /** A slot with blobs whose bundle was never uploaded cannot be served, whatever its status, Verified included. */
  lemma {:induction false} RefusedUntilUploaded(env: Env, objects: Objects, s: State, n: nat)
    requires env.WellFormed() && Reachable(env, s) && n in s.db.blocks && env.sidecars(n) != [] && Sound(objects, s.uploads)
    requires forall u :: u in s.uploads ==> u.b != s.db.blocks[n].bundle
    ensures Direct(env.eth, objects, s.db, n, []).Refused?
  {
    hide Sound;
    ServesWhatIsStored(env, objects, s, n);
    if ObjectOf(objects, s, n, 0).Some? {
      var u := SomeUpload(objects, s.uploads, s.db.blocks[n].bundle, BlobKey(n, 0));
    }
  }

  lemma {:induction false} SomeUpload(objects: Objects, uploads: set<Upload>, b: BundleId, k: BlobKey) returns (u: Upload)
    requires Sound(objects, uploads) && objects(b, k).Some?
    ensures u in uploads && Offers(u, b, k, objects(b, k).value)
  {
    u :| u in uploads && Offers(u, b, k, objects(b, k).value);
  }

  /******* Verified slots *******/

  /** A slot Verified blob by blob is served with the blobs of the chain, up to prefix and the case of hexadecimal digits, if the
      bundle service still answers for them what it answered then. */
  lemma {:induction false} VerifiedBlobsAreServed(env: Env, objects: Objects, s: State, n: nat)
    requires env.WellFormed() && Reachable(env, s) && n in s.db.blocks && s.db.blocks[n].status.Verified?
    requires n in s.evidence && s.evidence[n].BlobsMatched?
    requires forall i: nat :: i < |s.evidence[n].replies| && s.evidence[n].replies[i].Object? ==>
      objects(s.evidence[n].b, BlobKey(n, i)) == Some(s.evidence[n].replies[i].text)
    requires forall i: nat :: i < |env.sidecars(n)| ==> IsHex(Digits(env.sidecars(n)[i].blob))
    requires forall i: nat :: i < |env.sidecars(n)| && i < |s.evidence[n].replies| && s.evidence[n].replies[i].Object? ==>
      Checks.TellsApart(env.coding.sha, s.evidence[n].replies[i].text, env.sidecars(n)[i].blob)
    ensures var answer := Direct(env.eth, objects, s.db, n, []);
      && answer.Served? && |answer.views| == |env.sidecars(n)|
      && forall i: nat :: i < |env.sidecars(n)| ==>
           ServesSidecar(env, n, i, answer.views[i]) && SameHex(answer.views[i].blob, env.sidecars(n)[i].blob)
  {
    Theorems.EvidenceNamesBundle(env, s, n);
    ServesWhatIsStored(env, objects, s, n);
    forall i: nat | i < |env.sidecars(n)|
      ensures i < |s.evidence[n].replies| && s.evidence[n].replies[i].Object?
      ensures SameHex(s.evidence[n].replies[i].text, env.sidecars(n)[i].blob)
      ensures ObjectOf(objects, s, n, i) == Some(s.evidence[n].replies[i].text)
    {
      Theorems.MatchedBlobsAreIntact(env, s, n, i);
    }
  }

  /** The chain recorded the checksums of the object packed from d, up to hash collisions and digests that differ only in the case
      of their base64 text, and packing tells d from the directory of the range. */
  ghost predicate RecordedFor(env: Env, e: Evidence, d: Dir)
    requires env.WellFormed() && e.BundleMatched?
  {
    var x, y := env.pack(d), Theorems.RebuiltObject(env, e.b);
    var stored, rebuilt := Checksum.HashList(env.coding, x, env.segmentSize), Checksum.HashList(env.coding, y, env.segmentSize);
    && stored.Some? && e.onChain == Checks.Recorded(env.base64, stored.value)
    && (rebuilt.Some? ==> Theorems.CaseTells(env.base64, rebuilt.value, stored.value))
    && Checksum.NoCollision(env.coding.sha,
         Checksum.HashedFor(env.coding.sha, x, env.segmentSize) + Checksum.HashedFor(env.coding.sha, y, env.segmentSize))
    && (x == y ==> d == Expected(env, e.b.lo, e.b.hi))
  }

  /** A slot Verified bundle-wise is served with the blobs of the chain, if the bundle named on it is the one that was checked
      and the bundle service serves the files of the object whose checksums were recorded. */
  lemma {:induction false} VerifiedBundleIsServed(env: Env, objects: Objects, s: State, n: nat, d: Dir)
    requires env.WellFormed() && Reachable(env, s) && n in s.db.blocks && s.db.blocks[n].status.Verified?
    requires n in s.evidence && s.evidence[n].BundleMatched? && RecordedFor(env, s.evidence[n], d)
    requires
      || s.evidence[n].b == s.db.blocks[n].bundle
      || forall c :: c in s.db.bundles && c.Covers(n) ==> c == s.db.blocks[n].bundle
    requires forall k :: k in d ==> objects(s.evidence[n].b, k) == Some(d[k])
    ensures var answer := Direct(env.eth, objects, s.db, n, []); answer.Served? && IsTheChain(env, n, answer.views)
  {
    hide Direct, Expected, ServesSidecar;
    var b := s.evidence[n].b;
    Theorems.EvidenceNamesBundle(env, s, n);
    Theorems.MatchedBundleIsIntact(env, s, n, env.pack(d));
    ServesWhatIsStored(env, objects, s, n);
    Invariant.ExpectedHolds(env, b.lo, b.hi);
    forall i: nat | i < |env.sidecars(n)| ensures ObjectOf(objects, s, n, i) == Some(env.sidecars(n)[i].blob) {
      assert BlobKey(n, i) in d;
    }
  }

  /******* Whatever is served *******/

  lemma {:induction false} StoredIsTheChain(env: Env, objects: Objects, s: State, b: BundleId, k: BlobKey)
    requires env.WellFormed() && Reachable(env, s) && Sound(objects, s.uploads) && objects(b, k).Some?
    ensures 0 <= k.idx < |env.sidecars(k.slot)| && objects(b, k).value == env.sidecars(k.slot)[k.idx].blob
  {
    var u := SomeUpload(objects, s.uploads, b, k);
    Theorems.UploadsAreExact(env, s, u);
  }

  lemma {:induction false} ViewIsTheChain(env: Env, objects: Objects, s: State, n: nat, i: nat, c: BundleId)
    requires env.WellFormed() && Reachable(env, s) && Sound(objects, s.uploads) && n in s.db.blocks
    requires i < |env.sidecars(n)| && objects(c, BlobKey(n, i)).Some?
    ensures |RowsAt(s.db.blobs, n)| == |env.sidecars(n)|
    ensures IsSidecar(env, n, i, ViewOf(env.eth, s.db.blocks[n], RowsAt(s.db.blobs, n)[i], objects(c, BlobKey(n, i)).value))
  {
    hide ViewOf, ServesSidecar, Sound;
    ArchiveIsDense(env, s, n);
    SavedBlock(env, s, n);
    StoredIsTheChain(env, objects, s, c, BlobKey(n, i));
    RowServesSidecar(env, s.db.blocks[n], n, i, RowsAt(s.db.blobs, n)[i], objects(c, BlobKey(n, i)).value);
  }

  lemma {:induction false} FoundIsTheChain(env: Env, objects: Objects, s: State, n: nat, found: seq<View>, c: BundleId)
    requires env.WellFormed() && Reachable(env, s) && Sound(objects, s.uploads)
    requires FromBundle(env.eth, objects, s.db, n, found, c)
    ensures IsTheChain(env, n, found)
  {
    hide ViewOf, IsSidecar, Sound, Views, RowsAt;
    ArchiveIsDense(env, s, n);
    FoundMeans(env.eth, objects, s.db, n, found, c);
    forall i: nat | i < |env.sidecars(n)| ensures IsSidecar(env, n, i, found[i]) {
      assert RowsAt(s.db.blobs, n)[i].key == BlobKey(n, i);
      ViewIsTheChain(env, objects, s, n, i, c);
    }
  }

  /** Some sidecar of the chain for that slot. */
  ghost predicate OfTheChain(env: Env, n: nat, v: View) {
    exists i: nat :: IsSidecar(env, n, i, v)
  }

  lemma {:induction false} DirectIsOfTheChain(env: Env, objects: Objects, s: State, n: nat, indices: seq<int>, i: nat)
    requires env.WellFormed() && Reachable(env, s) && Sound(objects, s.uploads)
    requires var answer := Direct(env.eth, objects, s.db, n, indices); answer.Served? && i < |answer.views|
    ensures OfTheChain(env, n, Direct(env.eth, objects, s.db, n, indices).views[i])
  {
    hide ViewOf, IsSidecar, Sound, RowsAt, Metas;
    var metas := Metas(s.db, n, indices);
    ArchiveIsDense(env, s, n);
    MetasMeans(s.db, n, indices);
    ViewsMeansEach(env.eth, objects, s.db.blocks[n], metas);
    var j := metas[i].key.idx;
    assert metas[i].key == BlobKey(n, j);
    ViewIsTheChain(env, objects, s, n, j, s.db.blocks[n].bundle);
  }

  lemma {:induction false} CachedIsOfTheChain(env: Env, n: nat, found: seq<View>, indices: seq<int>, i: nat)
    requires IsTheChain(env, n, found) && FromCache(found, indices).Served? && i < |FromCache(found, indices).views|
    ensures OfTheChain(env, n, FromCache(found, indices).views[i])
  {
    hide IsSidecar;
    PickMeansEach(found, indices);
    var j: nat := if |indices| == 0 then i else indices[i];
    assert IsSidecar(env, n, j, found[j]);
  }

  /** Nothing wrong is ever served. Over every run of the server, while the archive saves, verifies and replaces bundles, with a
      bundle service that holds only what was uploaded: every sidecar in an answer, from the cache or not, is one of the chain for
      that slot, and an answer to a request for all of them is the chain's sidecars in order. */
  lemma {:induction false} ServedIsTheChain(env: Env, states: seq<Server>, events: seq<Event>, i: nat, s: State)
    requires env.WellFormed() && IsRun(env.eth, states, events) && i < |events| && events[i].Request? && events[i].answer.Served?
    requires Reachable(env, s) && states[i].db == s.db && Sound(states[i].objects, s.uploads)
    ensures events[i].indices == [] ==> IsTheChain(env, events[i].slot, events[i].answer.views)
    ensures forall j :: 0 <= j < |events[i].answer.views| ==> OfTheChain(env, events[i].slot, events[i].answer.views[j])
  {
    hide FromBundle, Direct, IsTheChain, OfTheChain, Sound, Service.Pick;
    RunAgrees(env.eth, states, events, i);
    assert Step(env.eth, states[i], events[i], states[i + 1]);
    var t, n, indices, views := states[i], events[i].slot, events[i].indices, events[i].answer.views;
    if n in t.entries {
      var c :| FromBundle(env.eth, t.objects, t.db, n, t.entries[n], c);
      FoundIsTheChain(env, t.objects, s, n, t.entries[n], c);
    } else if indices == [] {
      DirectIsFromBundle(env.eth, t, n);
      FoundIsTheChain(env, t.objects, s, n, views, s.db.blocks[n].bundle);
    }
    forall j | 0 <= j < |views| ensures OfTheChain(env, n, views[j]) {
      if n in t.entries {
        CachedIsOfTheChain(env, n, t.entries[n], indices, j);
      } else {
        DirectIsOfTheChain(env, t.objects, s, n, indices, j);
      }
    }
  }

  /** Such a bundle service holds for a slot the objects cached exactly if the bundle named on it holds any for its rows: a cached
      slot and the direct answer differ only while that bundle is not there. */
  lemma {:induction false} HeldUnlessLacking(
      env: Env, objects: Objects, s: State, n: nat, found: seq<View>, c: BundleId, indices: seq<int>)
    requires env.WellFormed() && Reachable(env, s) && Sound(objects, s.uploads)
    requires FromBundle(env.eth, objects, s.db, n, found, c)
    ensures Held(objects, s.db.blocks[n].bundle, Metas(s.db, n, indices), found) <==>
      !Lacks(objects, s.db.blocks[n].bundle, Metas(s.db, n, indices))
  {
    var b, metas := s.db.blocks[n].bundle, Metas(s.db, n, indices);
    hide ViewOf, ServesSidecar, Sound, RowsAt, Metas, FromBundle;
    ArchiveIsDense(env, s, n);
    MetasMeans(s.db, n, indices);
    FoundIsTheChain(env, objects, s, n, found, c);
    forall i | 0 <= i < |metas|
      ensures 0 <= metas[i].key.idx < |found|
      ensures objects(b, metas[i].key).Some? <==> objects(b, metas[i].key) == Some(found[metas[i].key.idx].blob)
    {
      var j := metas[i].key.idx;
      assert metas[i].key == BlobKey(n, j) && IsSidecar(env, n, j, found[j]);
      if objects(b, metas[i].key).Some? {
        StoredIsTheChain(env, objects, s, b, metas[i].key);
      }
    }
  }

  /** So a request in order and range is answered as without cache exactly if the slot is not cached, or the bundle named on it
      holds its objects: not from the moment a re-upload moves the slot until the new bundle is there. */
  lemma {:induction false} CachedAgreesOnceUploaded(env: Env, states: seq<Server>, events: seq<Event>, i: nat, s: State)
    requires env.WellFormed() && IsRun(env.eth, states, events) && i < |events| && events[i].Request?
    requires !events[i].answer.CallFailed?
    requires Reachable(env, s) && states[i].db == s.db && Sound(states[i].objects, s.uploads)
    requires Increasing(events[i].indices) && Bounded(events[i].indices, |env.sidecars(events[i].slot)|)
    ensures var t, n, indices := states[i], events[i].slot, events[i].indices;
      && (n in t.entries ==> n in s.db.blocks)
      && (events[i].answer == Direct(env.eth, t.objects, s.db, n, indices) <==>
            (n in t.entries ==> !Lacks(t.objects, s.db.blocks[n].bundle, Metas(s.db, n, indices))))
  {
    hide FromBundle, Direct, Sound, FromCache, Held, Lacks, Metas, RowsAt;
    RunAgrees(env.eth, states, events, i);
    assert Step(env.eth, states[i], events[i], states[i + 1]);
    var t, n, indices := states[i], events[i].slot, events[i].indices;
    if n in t.entries {
      var c :| FromBundle(env.eth, t.objects, t.db, n, t.entries[n], c);
      CachedSlot(env, t, s, n, c);
      RunsAnswerExactly(env.eth, states, events, i);
      HeldUnlessLacking(env, t.objects, s, n, t.entries[n], c, indices);
    }
  }

  lemma {:induction false} CachedSlot(env: Env, t: Server, s: State, n: nat, c: BundleId)
    requires env.WellFormed() && Reachable(env, s) && t.db == s.db && n in t.entries
    requires FromBundle(env.eth, t.objects, t.db, n, t.entries[n], c)
    ensures n in s.db.blocks && KeyedBlobs(s.db.blobs) && Dense(s.db.blobs, n) && |RowsAt(s.db.blobs, n)| == |env.sidecars(n)|
  {
    ArchiveIsDense(env, s, n);
  }
}
