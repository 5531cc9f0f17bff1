/** The eth_getBlobSidecars reply of the BSC handler (restapi/handlers/blob.go): sidecars grouped by transaction again. */
module Handler {
  import opened Types
  import opened Text
  import Chain
  import Service

  /** One transaction of the reply. */
  datatype TxGroup = TxGroup(
    blobs: seq<string>, commitments: seq<string>, proofs: seq<string>, txHash: string, txIndex: string, blockNumber: string)

  /******* Grouping *******/

  /** The blobs, commitments and proofs of one transaction hash, in the order of the sidecars. */
  function BlobsOf(sidecars: seq<Service.View>, hash: string): seq<string> {
    if sidecars == [] then [] else
      var last := sidecars[|sidecars| - 1];
      BlobsOf(sidecars[..|sidecars| - 1], hash) + if last.txHash == hash then [last.blob] else []
  }

  function CommitmentsOf(sidecars: seq<Service.View>, hash: string): seq<string> {
    if sidecars == [] then [] else
      var last := sidecars[|sidecars| - 1];
      CommitmentsOf(sidecars[..|sidecars| - 1], hash) + if last.txHash == hash then [last.kzgCommitment] else []
  }

  function ProofsOf(sidecars: seq<Service.View>, hash: string): seq<string> {
    if sidecars == [] then [] else
      var last := sidecars[|sidecars| - 1];
      ProofsOf(sidecars[..|sidecars| - 1], hash) + if last.txHash == hash then [last.kzgProof] else []
  }

  predicate HasHash(sidecars: seq<Service.View>, hash: string) {
    exists i :: 0 <= i < |sidecars| && sidecars[i].txHash == hash
  }

  /** The index of the last sidecar of the hash is the one that stays. */
  ghost function LastIndexOf(sidecars: seq<Service.View>, hash: string): int
    requires HasHash(sidecars, hash)
  {
    var last := |sidecars| - 1;
    if sidecars[last].txHash == hash then sidecars[last].txIndex else
      var i :| 0 <= i < |sidecars| && sidecars[i].txHash == hash;
      assert sidecars[..last][i].txHash == hash;
      LastIndexOf(sidecars[..last], hash)
  }

  ghost function GroupOf(blockNumber: string, sidecars: seq<Service.View>, hash: string): TxGroup
    requires HasHash(sidecars, hash)
  {
    TxGroup(BlobsOf(sidecars, hash), CommitmentsOf(sidecars, hash), ProofsOf(sidecars, hash), hash,
      Int64ToHex(LastIndexOf(sidecars, hash)), blockNumber)
  }

  /** One group per hash, holding what the sidecars of that hash say. */
  ghost predicate IsGrouping(blockNumber: string, sidecars: seq<Service.View>, groups: map<string, TxGroup>) {
    && (forall h :: h in groups <==> HasHash(sidecars, h))
    && (forall h :: h in groups ==> groups[h] == GroupOf(blockNumber, sidecars, h))
  }

  /** The map entries in some order, each once. */
  ghost predicate Lists(groups: map<string, TxGroup>, listed: seq<TxGroup>) {
    && (forall i :: 0 <= i < |listed| ==> listed[i].txHash in groups && groups[listed[i].txHash] == listed[i])
    && (forall i, j :: 0 <= i < j < |listed| ==> listed[i].txHash != listed[j].txHash)
    && (forall h :: h in groups ==> Mentions(listed, h))
  }

  ghost predicate Mentions(listed: seq<TxGroup>, hash: string) {
    exists i :: 0 <= i < |listed| && listed[i].txHash == hash
  }

  /** One group for each hash among the sidecars, in any order, holding what the sidecars of that hash say. */
  ghost predicate IsReply(blockNumber: string, sidecars: seq<Service.View>, listed: seq<TxGroup>) {
    && (forall i :: 0 <= i < |listed| ==>
          HasHash(sidecars, listed[i].txHash) && listed[i] == GroupOf(blockNumber, sidecars, listed[i].txHash))
    && (forall i, j :: 0 <= i < j < |listed| ==> listed[i].txHash != listed[j].txHash)
    && (forall h :: HasHash(sidecars, h) ==> Mentions(listed, h))
  }

  lemma {:induction false} OneMoreSidecar(
      blockNumber: string, sidecars: seq<Service.View>, next: Service.View, groups: map<string, TxGroup>)
    requires IsGrouping(blockNumber, sidecars, groups)
    ensures var h := next.txHash; var g := if h in groups then groups[h] else TxGroup([], [], [], h, "", "");
      IsGrouping(blockNumber, sidecars + [next],
        groups[h := TxGroup(g.blobs + [next.blob], g.commitments + [next.kzgCommitment], g.proofs + [next.kzgProof], g.txHash,
                            Int64ToHex(next.txIndex), blockNumber)])
  {
    var longer := sidecars + [next];
    assert longer[..|longer| - 1] == sidecars;
    forall h ensures HasHash(longer, h) <==> HasHash(sidecars, h) || h == next.txHash {
      if HasHash(sidecars, h) {
        var i :| 0 <= i < |sidecars| && sidecars[i].txHash == h;
        assert longer[i].txHash == h;
      }
      assert longer[|sidecars|].txHash == next.txHash;
    }
    if !HasHash(sidecars, next.txHash) {
      NothingOf(sidecars, next.txHash);
    }
  }

  lemma {:induction false} NothingOf(sidecars: seq<Service.View>, hash: string)
    requires !HasHash(sidecars, hash)
    ensures BlobsOf(sidecars, hash) == [] && CommitmentsOf(sidecars, hash) == [] && ProofsOf(sidecars, hash) == []
    decreases |sidecars|
  {
    if sidecars != [] {
      var front := sidecars[..|sidecars| - 1];
      forall i | 0 <= i < |front| ensures front[i].txHash != hash {
        assert sidecars[i].txHash == front[i].txHash;
      }
      assert sidecars[|sidecars| - 1].txHash != hash;
      NothingOf(front, hash);
    }
  }

  method GroupByTx(blockNumber: string, sidecars: seq<Service.View>) returns (txSidecarsArr: seq<TxGroup>)
    ensures IsReply(blockNumber, sidecars, txSidecarsArr)
  {
    var bscTxSidecars: map<string, TxGroup> := map[];
    for i := 0 to |sidecars|
      invariant IsGrouping(blockNumber, sidecars[..i], bscTxSidecars)
    {
      var sidecar := sidecars[i];
      OneMoreSidecar(blockNumber, sidecars[..i], sidecar, bscTxSidecars);
      assert sidecars[..i + 1] == sidecars[..i] + [sidecar];
      var txSidecar := TxGroup([], [], [], sidecar.txHash, "", "");
      if sidecar.txHash in bscTxSidecars {
        txSidecar := bscTxSidecars[sidecar.txHash];
      }
      txSidecar := TxGroup(txSidecar.blobs + [sidecar.blob], txSidecar.commitments + [sidecar.kzgCommitment],
        txSidecar.proofs + [sidecar.kzgProof], txSidecar.txHash, Int64ToHex(sidecar.txIndex), blockNumber);
      bscTxSidecars := bscTxSidecars[sidecar.txHash := txSidecar];
    }
    assert sidecars[..|sidecars|] == sidecars;
    txSidecarsArr := ListGroups(bscTxSidecars);
  }

  /** Iterating over a map visits every entry once, in no particular order. */
  method ListGroups(groups: map<string, TxGroup>) returns (listed: seq<TxGroup>)
    requires forall h :: h in groups ==> groups[h].txHash == h
    ensures Lists(groups, listed)
  {
    listed := [];
    var rest := groups.Keys;
    while rest != {}
      invariant rest <= groups.Keys
      invariant forall i :: 0 <= i < |listed| ==>
        listed[i].txHash in groups && listed[i].txHash !in rest && groups[listed[i].txHash] == listed[i]
      invariant forall i, j :: 0 <= i < j < |listed| ==> listed[i].txHash != listed[j].txHash
      invariant forall h :: h in groups && h !in rest ==> Mentions(listed, h)
      decreases rest
    {
      var h :| h in rest;
      ghost var before := listed;
      listed := listed + [groups[h]];
      rest := rest - {h};
      forall k | k in groups && k !in rest ensures Mentions(listed, k) {
        if k == h {
          assert listed[|before|].txHash == h;
        } else {
          var i :| 0 <= i < |before| && before[i].txHash == k;
          assert listed[i].txHash == k;
        }
      }
    }
  }

  /******* Grouping undoes flattening *******/

  lemma {:induction false} OfOneMore(a: seq<Service.View>, v: Service.View, hash: string)
    ensures BlobsOf(a + [v], hash) == BlobsOf(a, hash) + if v.txHash == hash then [v.blob] else []
    ensures CommitmentsOf(a + [v], hash) == CommitmentsOf(a, hash) + if v.txHash == hash then [v.kzgCommitment] else []
    ensures ProofsOf(a + [v], hash) == ProofsOf(a, hash) + if v.txHash == hash then [v.kzgProof] else []
  {
    assert (a + [v])[..|a|] == a;
  }

  lemma {:induction false} OfConcat(a: seq<Service.View>, b: seq<Service.View>, hash: string)
    ensures BlobsOf(a + b, hash) == BlobsOf(a, hash) + BlobsOf(b, hash)
    ensures CommitmentsOf(a + b, hash) == CommitmentsOf(a, hash) + CommitmentsOf(b, hash)
    ensures ProofsOf(a + b, hash) == ProofsOf(a, hash) + ProofsOf(b, hash)
    decreases |b|
  {
    if b == [] {
      assert a + b == a;
    } else {
      hide BlobsOf, CommitmentsOf, ProofsOf;
      var last := |b| - 1;
      OfConcat(a, b[..last], hash);
      OfOneMore(a + b[..last], b[last], hash);
      OfOneMore(b[..last], b[last], hash);
      assert a + b == a + b[..last] + [b[last]];
      assert b == b[..last] + [b[last]];
      var hit := b[last].txHash == hash;
      Associates(BlobsOf(a, hash), BlobsOf(b[..last], hash), if hit then [b[last].blob] else []);
      Associates(CommitmentsOf(a, hash), CommitmentsOf(b[..last], hash), if hit then [b[last].kzgCommitment] else []);
      Associates(ProofsOf(a, hash), ProofsOf(b[..last], hash), if hit then [b[last].kzgProof] else []);
    }
  }

  lemma {:induction false} Associates(x: seq<string>, y: seq<string>, z: seq<string>)
    ensures (x + y) + z == x + (y + z)
  {
  }

  /** These sidecars are the blobs of this transaction under the given hash. */
  ghost predicate Shows(tx: Chain.BscTxSidecar, tag: string, run: seq<Service.View>) {
    && Chain.Aligned(tx) && HexToUint64(tx.txIndex).Some? && |run| == |tx.blobs|
    && forall j :: 0 <= j < |run| ==>
         && run[j].blob == tx.blobs[j] && run[j].kzgCommitment == tx.commitments[j] && run[j].kzgProof == tx.proofs[j]
         && run[j].txHash == tag && run[j].txIndex == Chain.ToInt64(HexToUint64(tx.txIndex).value)
  }

  lemma {:induction false} OneMoreOf(run: seq<Service.View>, tag: string, n: nat)
    requires 0 < n <= |run| && run[n - 1].txHash == tag
    ensures BlobsOf(run[..n], tag) == BlobsOf(run[..n - 1], tag) + [run[n - 1].blob]
    ensures CommitmentsOf(run[..n], tag) == CommitmentsOf(run[..n - 1], tag) + [run[n - 1].kzgCommitment]
    ensures ProofsOf(run[..n], tag) == ProofsOf(run[..n - 1], tag) + [run[n - 1].kzgProof]
  {
    assert run[..n][..n - 1] == run[..n - 1];
  }

  lemma {:induction false} OneMoreTaken(list: seq<string>, n: nat)
    requires 0 < n <= |list|
    ensures list[..n] == list[..n - 1] + [list[n - 1]]
  {
  }

  lemma {:induction false} OfRun(tx: Chain.BscTxSidecar, tag: string, run: seq<Service.View>, n: nat)
    requires Shows(tx, tag, run) && n <= |run|
    ensures BlobsOf(run[..n], tag) == tx.blobs[..n] && CommitmentsOf(run[..n], tag) == tx.commitments[..n]
    ensures ProofsOf(run[..n], tag) == tx.proofs[..n]
    decreases n
  {
    hide HexToUint64, Chain.ToInt64;
    if n > 0 {
      hide BlobsOf, CommitmentsOf, ProofsOf;
      OfRun(tx, tag, run, n - 1);
      OneMoreOf(run, tag, n);
      OneMoreTaken(tx.blobs, n);
      OneMoreTaken(tx.commitments, n);
      OneMoreTaken(tx.proofs, n);
    }
  }

  /** The sidecars are those of the transactions one after the other, each under its own hash. */
  ghost predicate ShowsAll(txs: seq<Chain.BscTxSidecar>, tags: seq<string>, views: seq<Service.View>)
    requires |tags| == |txs|
  {
    if txs == [] then views == [] else
      var last := |txs| - 1;
      var n := |txs[last].blobs|;
      && n <= |views| && ShowsAll(txs[..last], tags[..last], views[..|views| - n])
      && Shows(txs[last], tags[last], views[|views| - n..])
  }

  /** A transaction as the chain lists it: as many commitments and proofs as blobs, at least one, and an index below 2^63. */
  predicate Regular(tx: Chain.BscTxSidecar) {
    && 0 < |tx.blobs| == |tx.commitments| == |tx.proofs|
    && HexToUint64(tx.txIndex).Some? && HexToUint64(tx.txIndex).value < INT64_LIMIT
  }

  /** What the reply says about the transaction. */
  function Restored(blockNumber: string, tx: Chain.BscTxSidecar, tag: string): TxGroup
    requires Regular(tx)
  {
    TxGroup(tx.blobs, tx.commitments, tx.proofs, tag, Int64ToHex(HexToUint64(tx.txIndex).value), blockNumber)
  }

  /** The printed index is the number the chain gave. */
  lemma {:induction false} RestoredIndex(blockNumber: string, tx: Chain.BscTxSidecar, tag: string)
    requires Regular(tx)
    ensures HexToUint64(Restored(blockNumber, tx, tag).txIndex) == HexToUint64(tx.txIndex)
  {
    HexRoundTrip(HexToUint64(tx.txIndex).value);
  }

  /** Any index the chain may give, taken as signed and printed: a client reads it back exactly if it is below 2^63. */
  lemma {:induction false} IndexSurvivesExactly(index: nat)
    requires index < UINT64_LIMIT
    ensures HexToUint64(Int64ToHex(Chain.ToInt64(index))) == Some(index) <==> index < INT64_LIMIT
  {
    if index < INT64_LIMIT {
      HexRoundTrip(index);
    } else {
      NegativeHexIsLost(Chain.ToInt64(index));
    }
  }

  ghost predicate Distinct(tags: seq<string>) {
    forall t, u :: 0 <= t < u < |tags| ==> tags[t] != tags[u]
  }

  lemma {:induction false} HashesSplit(a: seq<Service.View>, b: seq<Service.View>, h: string)
    ensures HasHash(a + b, h) <==> HasHash(a, h) || HasHash(b, h)
  {
    if HasHash(a, h) {
      var i :| 0 <= i < |a| && a[i].txHash == h;
      assert (a + b)[i].txHash == h;
    }
    if HasHash(b, h) {
      var i :| 0 <= i < |b| && b[i].txHash == h;
      assert (a + b)[|a| + i].txHash == h;
    }
  }

  /** Sidecars after the last one of a hash do not change its index. */
  lemma {:induction false} LastIndexStays(a: seq<Service.View>, b: seq<Service.View>, h: string)
    requires HasHash(a, h) && !HasHash(b, h)
    ensures HasHash(a + b, h) && LastIndexOf(a + b, h) == LastIndexOf(a, h)
    decreases |b|
  {
    HashesSplit(a, b, h);
    if b == [] {
      assert a + b == a;
    } else {
      var last := |b| - 1;
      assert b == b[..last] + [b[last]];
      HashesSplit(b[..last], [b[last]], h);
      assert [b[last]][0].txHash == b[last].txHash;
      LastIndexStays(a, b[..last], h);
      assert (a + b)[..|a + b| - 1] == a + b[..last];
      assert (a + b)[|a + b| - 1] == b[last];
    }
  }

  /** The hashes seen are the tags of the transactions. */
  lemma {:induction false} HashesAreTags(txs: seq<Chain.BscTxSidecar>, tags: seq<string>, views: seq<Service.View>, h: string)
    requires |tags| == |txs| && ShowsAll(txs, tags, views) && forall t :: 0 <= t < |txs| ==> Regular(txs[t])
    ensures HasHash(views, h) <==> h in tags
    decreases |txs|
  {
    if txs != [] {
      var last := |txs| - 1;
      var n := |txs[last].blobs|;
      var front, run := views[..|views| - n], views[|views| - n..];
      HashesAreTags(txs[..last], tags[..last], front, h);
      assert views == front + run;
      HashesSplit(front, run, h);
      assert run[0].txHash == tags[last];
      assert tags == tags[..last] + [tags[last]];
    }
  }

  lemma {:induction false} LastGroup(
      blockNumber: string, tx: Chain.BscTxSidecar, tag: string, front: seq<Service.View>, run: seq<Service.View>)
    requires Regular(tx) && Shows(tx, tag, run) && !HasHash(front, tag)
    ensures HasHash(front + run, tag) && GroupOf(blockNumber, front + run, tag) == Restored(blockNumber, tx, tag)
  {
    hide HexToUint64, Int64ToHex;
    var views := front + run;
    assert run[0].txHash == tag;
    HashesSplit(front, run, tag);
    OfConcat(front, run, tag);
    NothingOf(front, tag);
    OfRun(tx, tag, run, |run|);
    assert run[..|run|] == run && views[|views| - 1] == run[|run| - 1];
  }

  lemma {:induction false} EarlierGroup(blockNumber: string, front: seq<Service.View>, run: seq<Service.View>, h: string)
    requires HasHash(front, h) && !HasHash(run, h)
    ensures HasHash(front + run, h) && GroupOf(blockNumber, front + run, h) == GroupOf(blockNumber, front, h)
  {
    OfConcat(front, run, h);
    NothingOf(run, h);
    LastIndexStays(front, run, h);
  }

  /** Each transaction's group holds exactly its blobs, commitments, proofs and index. */
  lemma {:induction false} GroupsRestore(
      blockNumber: string, txs: seq<Chain.BscTxSidecar>, tags: seq<string>, views: seq<Service.View>, t: nat)
    requires t < |tags| == |txs| && ShowsAll(txs, tags, views) && Distinct(tags)
    requires forall u :: 0 <= u < |txs| ==> Regular(txs[u])
    ensures HasHash(views, tags[t]) && GroupOf(blockNumber, views, tags[t]) == Restored(blockNumber, txs[t], tags[t])
    decreases |txs|
  {
    var last := |txs| - 1;
    var n := |txs[last].blobs|;
    var front, run := views[..|views| - n], views[|views| - n..];
    assert views == front + run;
    HashesAreTags(txs[..last], tags[..last], front, tags[t]);
    if t == last {
      assert tags[t] !in tags[..last];
      LastGroup(blockNumber, txs[t], tags[t], front, run);
    } else {
      GroupsRestore(blockNumber, txs[..last], tags[..last], front, t);
      assert !HasHash(run, tags[t]);
      EarlierGroup(blockNumber, front, run, tags[t]);
    }
  }

  /** Service views that carry the sidecars' own blob, commitment, proof and transaction index. */
  ghost predicate Mirrors(views: seq<Service.View>, sidecars: seq<Sidecar>) {
    && |views| == |sidecars|
    && forall j :: 0 <= j < |views| ==>
         && views[j].blob == sidecars[j].blob && views[j].kzgCommitment == sidecars[j].kzgCommitment
         && views[j].kzgProof == sidecars[j].kzgProof && views[j].txIndex == sidecars[j].txIndex
  }

  /** Running number of the first blob of transaction t. */
  function Start(txs: seq<Chain.BscTxSidecar>, t: nat): nat
    requires t <= |txs|
  {
    if t == 0 then 0 else Start(txs, t - 1) + |txs[t - 1].blobs|
  }

  lemma {:induction false} StartOfPrefix(txs: seq<Chain.BscTxSidecar>, n: nat, t: nat)
    requires t <= n <= |txs|
    ensures Start(txs[..n], t) == Start(txs, t)
    decreases t
  {
    if t > 0 {
      StartOfPrefix(txs, n, t - 1);
    }
  }

  lemma {:induction false} FlattenLength(txs: seq<Chain.BscTxSidecar>)
    requires Chain.Flatten(txs).Fetched?
    ensures |Chain.Flatten(txs).sidecars| == Start(txs, |txs|)
    decreases |txs|
  {
    hide HexToUint64, Chain.ToInt64;
    if txs != [] {
      var last := |txs| - 1;
      FlattenLength(txs[..last]);
      StartOfPrefix(txs, last, last);
    }
  }

  /** Running number j falls to transaction t. */
  predicate Holds(txs: seq<Chain.BscTxSidecar>, t: nat, j: nat) {
    t < |txs| && Start(txs, t) <= j < Start(txs, t) + |txs[t].blobs|
  }

  /** Blobs of transaction t are shown under the hash tags[t]. */
  ghost predicate Tagged(txs: seq<Chain.BscTxSidecar>, tags: seq<string>, views: seq<Service.View>)
    requires |tags| == |txs|
  {
    && |views| == Start(txs, |txs|)
    && forall t: nat, j: nat :: Holds(txs, t, j) && j < |views| ==> views[j].txHash == tags[t]
  }

  lemma {:induction false} TaggedPrefix(txs: seq<Chain.BscTxSidecar>, tags: seq<string>, views: seq<Service.View>)
    requires |tags| == |txs| && txs != [] && Tagged(txs, tags, views)
    ensures var last := |txs| - 1;
      Start(txs, last) <= |views| && Tagged(txs[..last], tags[..last], views[..Start(txs, last)])
  {
    var last := |txs| - 1;
    StartOfPrefix(txs, last, last);
    forall t: nat, j: nat | Holds(txs[..last], t, j) && j < Start(txs, last)
      ensures views[..Start(txs, last)][j].txHash == tags[..last][t]
    {
      StartOfPrefix(txs, last, t);
      assert Holds(txs, t, j);
    }
  }

  /** The last transaction's blobs come last. */
  lemma {:induction false} LastRun(
      txs: seq<Chain.BscTxSidecar>, tags: seq<string>, sidecars: seq<Sidecar>, views: seq<Service.View>)
    requires |tags| == |txs| && txs != [] && Chain.Flatten(txs) == Chain.Fetched(sidecars)
    requires Mirrors(views, sidecars) && Tagged(txs, tags, views)
    ensures var last := |txs| - 1; var front := Chain.Flatten(txs[..last]);
      && front.Fetched? && |front.sidecars| == Start(txs, last) == |views| - |txs[last].blobs| && front.sidecars <= sidecars
      && Shows(txs[last], tags[last], views[Start(txs, last)..])
  {
    hide HexToUint64;
    var last := |txs| - 1;
    var tx := txs[last];
    var front := Chain.Flatten(txs[..last]).sidecars;
    FlattenLength(txs[..last]);
    StartOfPrefix(txs, last, last);
    assert sidecars == front + Chain.AllTxSidecars(tx, |front|);
    forall j | 0 <= j < |tx.blobs|
      ensures var v := views[|front|..][j];
        && v.blob == tx.blobs[j] && v.kzgCommitment == tx.commitments[j] && v.kzgProof == tx.proofs[j]
        && v.txHash == tags[last] && v.txIndex == Chain.ToInt64(HexToUint64(tx.txIndex).value)
    {
      Chain.TxSidecarsAt(tx, Chain.ToInt64(HexToUint64(tx.txIndex).value), |front|, |tx.blobs|, j);
      assert sidecars[|front| + j] == Chain.AllTxSidecars(tx, |front|)[j];
      assert Holds(txs, last, |front| + j);
    }
  }

  lemma {:induction false} FlattenedShowsAll(
      txs: seq<Chain.BscTxSidecar>, tags: seq<string>, sidecars: seq<Sidecar>, views: seq<Service.View>)
    requires |tags| == |txs| && Chain.Flatten(txs) == Chain.Fetched(sidecars) && Mirrors(views, sidecars)
    requires Tagged(txs, tags, views)
    ensures ShowsAll(txs, tags, views)
    decreases |txs|
  {
    hide HexToUint64;
    if txs != [] {
      var last := |txs| - 1;
      var front := Chain.Flatten(txs[..last]).sidecars;
      LastRun(txs, tags, sidecars, views);
      TaggedPrefix(txs, tags, views);
      FlattenedShowsAll(txs[..last], tags[..last], front, views[..|front|]);
    }
  }

  ghost predicate RestoresOne(blockNumber: string, txs: seq<Chain.BscTxSidecar>, tags: seq<string>, g: TxGroup)
    requires |tags| == |txs|
  {
    exists t :: 0 <= t < |txs| && Regular(txs[t]) && g == Restored(blockNumber, txs[t], tags[t])
  }

  /** Numbering the blobs of a block through all its transactions and grouping them again by distinct hashes gives back the
      transactions, in some order: every transaction has its group and every group is one of them. */
  lemma {:induction false} FlattenThenRegroup(
      blockNumber: string, txs: seq<Chain.BscTxSidecar>, tags: seq<string>, sidecars: seq<Sidecar>, views: seq<Service.View>,
      listed: seq<TxGroup>)
    requires |tags| == |txs| && Chain.Flatten(txs) == Chain.Fetched(sidecars) && Mirrors(views, sidecars)
    requires Tagged(txs, tags, views)
    requires Distinct(tags) && forall t :: 0 <= t < |txs| ==> Regular(txs[t])
    requires IsReply(blockNumber, views, listed)
    ensures forall t :: 0 <= t < |txs| ==> Restored(blockNumber, txs[t], tags[t]) in listed
    ensures forall i :: 0 <= i < |listed| ==> RestoresOne(blockNumber, txs, tags, listed[i])
  {
    hide HexToUint64, Int64ToHex;
    FlattenedShowsAll(txs, tags, sidecars, views);
    forall t | 0 <= t < |txs| ensures Restored(blockNumber, txs[t], tags[t]) in listed {
      GroupsRestore(blockNumber, txs, tags, views, t);
      var i :| 0 <= i < |listed| && listed[i].txHash == tags[t];
    }
    forall i | 0 <= i < |listed| ensures RestoresOne(blockNumber, txs, tags, listed[i]) {
      HashesAreTags(txs, tags, views, listed[i].txHash);
      var t :| 0 <= t < |tags| && tags[t] == listed[i].txHash;
      GroupsRestore(blockNumber, txs, tags, views, t);
      assert listed[i] == Restored(blockNumber, txs[t], tags[t]);
    }
  }

  function HashesOf(txs: seq<Chain.BscTxSidecar>): (tags: seq<string>)
    ensures |tags| == |txs| && forall t :: 0 <= t < |txs| ==> tags[t] == txs[t].txHash
  {
    seq(|txs|, t requires 0 <= t < |txs| => txs[t].txHash)
  }

  /** Sidecars flattened from the transactions carry the transactions' own hashes. */
  lemma {:induction false} FlattenedHashes(txs: seq<Chain.BscTxSidecar>, sidecars: seq<Sidecar>, t: nat, j: nat)
    requires Chain.Flatten(txs) == Chain.Fetched(sidecars) && Holds(txs, t, j)
    ensures j < |sidecars| && sidecars[j].txHash == txs[t].txHash
    decreases |txs|
  {
    hide HexToUint64;
    var last := |txs| - 1;
    var front := Chain.Flatten(txs[..last]).sidecars;
    FlattenLength(txs[..last]);
    StartOfPrefix(txs, last, last);
    assert sidecars == front + Chain.AllTxSidecars(txs[last], |front|);
    if t < last {
      StartOfPrefix(txs, last, t);
      FlattenedHashes(txs[..last], front, t, j);
    } else {
      Chain.TxSidecarsAt(
        txs[last], Chain.ToInt64(HexToUint64(txs[last].txIndex).value), |front|, |txs[last].blobs|, j - |front|);
    }
  }

  /** In particular, views that carry the sidecars' hashes regroup to the transactions themselves. */
  lemma {:induction false} RegroupByOwnHash(
      blockNumber: string, txs: seq<Chain.BscTxSidecar>, sidecars: seq<Sidecar>, views: seq<Service.View>, listed: seq<TxGroup>)
    requires Chain.Flatten(txs) == Chain.Fetched(sidecars) && Mirrors(views, sidecars)
    requires forall j :: 0 <= j < |views| ==> views[j].txHash == sidecars[j].txHash
    requires Distinct(HashesOf(txs)) && forall t :: 0 <= t < |txs| ==> Regular(txs[t])
    requires IsReply(blockNumber, views, listed)
    ensures forall t :: 0 <= t < |txs| ==> Restored(blockNumber, txs[t], txs[t].txHash) in listed
    ensures forall i :: 0 <= i < |listed| ==> RestoresOne(blockNumber, txs, HashesOf(txs), listed[i])
  {
    hide HexToUint64, Int64ToHex;
    var tags := HashesOf(txs);
    FlattenLength(txs);
    forall t: nat, j: nat | Holds(txs, t, j) && j < |views| ensures views[j].txHash == tags[t] {
      FlattenedHashes(txs, sidecars, t, j);
    }
    FlattenThenRegroup(blockNumber, txs, tags, sidecars, views, listed);
  }
}
