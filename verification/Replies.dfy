/** From the blocks of a BSC chain to the reply of the REST handler. */
module Replies {
  import opened Types
  import opened Protocol
  import Archive
  import Chain
  import Handler
  import Service
  import Text

  /** The blob transactions of a block, in order. */
  function BlobTxs(txs: seq<Tx>): seq<Tx>
    decreases |txs|
  {
    if txs == [] then [] else
      var last := |txs| - 1;
      BlobTxs(txs[..last]) + if txs[last].isBlobTx then [txs[last]] else []
  }

  /** The execution block and the sidecars list the same blob transactions, each with as many hashes as it has blobs. */
  ghost predicate LinedUp(txs: seq<Tx>, sidecars: seq<Chain.BscTxSidecar>) {
    && |BlobTxs(txs)| == |sidecars|
    && forall t :: 0 <= t < |sidecars| ==> |BlobTxs(txs)[t].blobHashes| == |sidecars[t].blobs|
  }

  lemma {:induction false} CountOfPrefix(txs: seq<Tx>, n: nat, t: nat)
    requires t <= n <= |txs|
    ensures Chain.PrefixCount(txs[..n], t) == Chain.PrefixCount(txs, t)
    decreases t
  {
    if t > 0 {
      CountOfPrefix(txs, n, t - 1);
    }
  }

  lemma {:induction false} LinedUpPrefix(txs: seq<Tx>, sidecars: seq<Chain.BscTxSidecar>)
    requires txs != [] && LinedUp(txs, sidecars)
    ensures var last := |txs| - 1;
      if txs[last].isBlobTx then
        && sidecars != [] && LinedUp(txs[..last], sidecars[..|sidecars| - 1])
        && BlobTxs(txs)[|sidecars| - 1] == txs[last] && BlobTxs(txs) == BlobTxs(txs[..last]) + [txs[last]]
      else LinedUp(txs[..last], sidecars) && BlobTxs(txs) == BlobTxs(txs[..last])
  {
    var last := |txs| - 1;
    if txs[last].isBlobTx {
      forall t | 0 <= t < |sidecars| - 1 ensures |BlobTxs(txs[..last])[t].blobHashes| == |sidecars[..|sidecars| - 1][t].blobs| {
        assert BlobTxs(txs)[t] == BlobTxs(txs[..last])[t];
      }
    }
  }

  /** Both count the same blobs. */
  lemma {:induction false} SameCount(txs: seq<Tx>, sidecars: seq<Chain.BscTxSidecar>)
    requires LinedUp(txs, sidecars)
    ensures Chain.PrefixCount(txs, |txs|) == Handler.Start(sidecars, |sidecars|)
    decreases |txs|
  {
    if txs != [] {
      var last := |txs| - 1;
      LinedUpPrefix(txs, sidecars);
      CountOfPrefix(txs, last, last);
      if txs[last].isBlobTx {
        SameCount(txs[..last], sidecars[..|sidecars| - 1]);
        Handler.StartOfPrefix(sidecars, |sidecars| - 1, |sidecars| - 1);
      } else {
        SameCount(txs[..last], sidecars);
      }
    }
  }

  /** The blobs of the t-th sidecar transaction belong to the t-th blob transaction of the block. */
  lemma {:induction false} OwnerOfRun(txs: seq<Tx>, sidecars: seq<Chain.BscTxSidecar>, t: nat, j: nat) returns (u: nat)
    requires LinedUp(txs, sidecars) && Handler.Holds(sidecars, t, j)
    ensures Chain.Owns(txs, u, j) && txs[u] == BlobTxs(txs)[t]
    decreases |txs|
  {
    var last := |txs| - 1;
    LinedUpPrefix(txs, sidecars);
    CountOfPrefix(txs, last, last);
    if txs[last].isBlobTx && t == |sidecars| - 1 {
      SameCount(txs[..last], sidecars[..t]);
      Handler.StartOfPrefix(sidecars, t, t);
      u := last;
    } else {
      var front := if txs[last].isBlobTx then sidecars[..|sidecars| - 1] else sidecars;
      Handler.StartOfPrefix(sidecars, |front|, t);
      u := OwnerOfRun(txs[..last], front, t, j);
      CountOfPrefix(txs, last, u);
      CountOfPrefix(txs, last, u + 1);
    }
  }

  /** The hashes of the blob transactions. */
  function TagsOf(txs: seq<Tx>): (tags: seq<string>)
    ensures |tags| == |BlobTxs(txs)|
  {
    seq(|BlobTxs(txs)|, t requires 0 <= t < |BlobTxs(txs)| => BlobTxs(txs)[t].hash)
  }

  lemma {:induction false} ServedIsTagged(env: Env, n: nat, sidecars: seq<Chain.BscTxSidecar>, views: seq<Service.View>)
    requires !env.eth && Archive.IsTheChain(env, n, views) && LinedUp(env.txs(n), sidecars)
    requires Chain.Flatten(sidecars) == Chain.Fetched(env.sidecars(n))
    ensures Handler.Mirrors(views, env.sidecars(n)) && Handler.Tagged(sidecars, TagsOf(env.txs(n)), views)
  {
    hide Text.Signed, Text.Decimal;
    Handler.FlattenLength(sidecars);
    forall j | 0 <= j < |views| ensures Archive.IsSidecar(env, n, j, views[j]) {
    }
    forall t: nat, j: nat | Handler.Holds(sidecars, t, j) && j < |views| ensures views[j].txHash == TagsOf(env.txs(n))[t] {
      var u := OwnerOfRun(env.txs(n), sidecars, t, j);
      assert Archive.IsSidecar(env, n, j, views[j]);
    }
  }

  /** What the chain lists is what the client gets: the sidecars served for a BSC block, grouped by the handler, are the block's
      sidecar transactions with all their blobs, commitments, proofs and indices, each under the hash of its transaction in the
      execution block, in some order, and nothing else. */
  lemma {:induction false} ReplyIsTheBlock(
      env: Env, n: nat, blockNumber: string, sidecars: seq<Chain.BscTxSidecar>, views: seq<Service.View>,
      listed: seq<Handler.TxGroup>)
    requires !env.eth && Archive.IsTheChain(env, n, views) && LinedUp(env.txs(n), sidecars)
    requires Chain.Flatten(sidecars) == Chain.Fetched(env.sidecars(n))
    requires Handler.Distinct(TagsOf(env.txs(n))) && forall t :: 0 <= t < |sidecars| ==> Handler.Regular(sidecars[t])
    requires Handler.IsReply(blockNumber, views, listed)
    ensures forall t :: 0 <= t < |sidecars| ==>
      Handler.Restored(blockNumber, sidecars[t], BlobTxs(env.txs(n))[t].hash) in listed
    ensures forall i :: 0 <= i < |listed| ==> Handler.RestoresOne(blockNumber, sidecars, TagsOf(env.txs(n)), listed[i])
  {
    ServedIsTagged(env, n, sidecars, views);
    Handler.FlattenThenRegroup(blockNumber, sidecars, TagsOf(env.txs(n)), env.sidecars(n), views, listed);
  }
}
