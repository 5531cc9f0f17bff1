/** What is read from the source chain: sidecars of a BSC block, blob rows and the transactions they belong to. */
module Chain {
  import opened Types
  import opened Text
  import opened Dao

  /******* Sidecars of a BSC block (external/client.go) *******/

  /** One entry of the eth_getBlobSidecars response. */
  datatype BscTxSidecar = BscTxSidecar(
    txIndex: string, txHash: string, blobs: seq<string>, commitments: seq<string>, proofs: seq<string>)

  /** NotFound stands for an absent response, Failed for a transaction index that does not parse, Panicked for a
      commitment or proof list shorter than the blob list. */
  datatype Fetched = Fetched(sidecars: seq<Sidecar>) | NotFound | Failed | Panicked

  /** Conversion of a 64-bit unsigned number to a signed one. */
  function ToInt64(n: nat): int
    requires n < UINT64_LIMIT
  {
    if n < INT64_LIMIT then n else n - UINT64_LIMIT
  }

  /** The same number modulo 2^64, within the signed range. */
  lemma {:induction false} ToInt64Means(n: nat, i: int)
    requires n < UINT64_LIMIT
    ensures ToInt64(n) == i <==> -INT64_LIMIT <= i < INT64_LIMIT && exists k: int :: n == i + k * UINT64_LIMIT
  {
    if ToInt64(n) == i {
      assert n == i + (if n < INT64_LIMIT then 0 else 1) * UINT64_LIMIT;
    }
    if -INT64_LIMIT <= i < INT64_LIMIT && exists k: int :: n == i + k * UINT64_LIMIT {
      var k: int :| n == i + k * UINT64_LIMIT;
      assert 0 <= k <= 1;
    }
  }

  predicate Aligned(tx: BscTxSidecar) {
    |tx.blobs| <= |tx.commitments| && |tx.blobs| <= |tx.proofs|
  }

  /** Blob `j` of a transaction under the running number `idx`. */
  function NumberedSidecar(tx: BscTxSidecar, txIndex: int, idx: nat, j: nat): Sidecar
    requires j < |tx.blobs| && j < |tx.commitments| && j < |tx.proofs|
  {
    Sidecar(Signed(idx), tx.blobs[j], tx.commitments[j], tx.proofs[j], [], txIndex, tx.txHash)
  }

  /** The first `n` sidecars of one transaction, numbered from `idx` on. */
  function TxSidecars(tx: BscTxSidecar, txIndex: int, idx: nat, n: nat): (r: seq<Sidecar>)
    requires n <= |tx.blobs| && n <= |tx.commitments| && n <= |tx.proofs|
    ensures |r| == n
  {
    if n == 0 then [] else TxSidecars(tx, txIndex, idx, n - 1) + [NumberedSidecar(tx, txIndex, idx + n - 1, n - 1)]
  }

  lemma {:induction false} TxSidecarsAt(tx: BscTxSidecar, txIndex: int, idx: nat, n: nat, j: nat)
    requires j < n && n <= |tx.blobs| && n <= |tx.commitments| && n <= |tx.proofs|
    ensures TxSidecars(tx, txIndex, idx, n)[j] == NumberedSidecar(tx, txIndex, idx + j, j)
    decreases n
  {
    if j < n - 1 {
      TxSidecarsAt(tx, txIndex, idx, n - 1, j);
    }
  }

  function AllTxSidecars(tx: BscTxSidecar, idx: nat): (r: seq<Sidecar>)
    requires Aligned(tx) && HexToUint64(tx.txIndex).Some?
    ensures |r| == |tx.blobs|
  {
    TxSidecars(tx, ToInt64(HexToUint64(tx.txIndex).value), idx, |tx.blobs|)
  }

  /** The sidecars of the first transactions under one running number. */
  function Flatten(txs: seq<BscTxSidecar>): Fetched
    decreases |txs|
  {
    if txs == [] then Fetched([]) else
      var last := |txs| - 1;
      match Flatten(txs[..last])
      case Fetched(front) =>
        if HexToUint64(txs[last].txIndex).None? then Failed
        else if !Aligned(txs[last]) then Panicked
        else Fetched(front + AllTxSidecars(txs[last], |front|))
      case failure => failure
  }

  /** The first transaction that fails decides. */
  lemma {:induction false} FlattenFails(txs: seq<BscTxSidecar>, n: nat)
    requires n <= |txs| && !Flatten(txs[..n]).Fetched?
    ensures Flatten(txs) == Flatten(txs[..n])
    decreases |txs|
  {
    if n == |txs| {
      assert txs[..n] == txs;
    } else {
      assert txs[..|txs| - 1][..n] == txs[..n];
      FlattenFails(txs[..|txs| - 1], n);
    }
  }

  /** The inner loop of GetBlob: the blobs of one transaction, under the running number. */
  method AppendTx(txSidecar: BscTxSidecar, txIndex: int, front: seq<Sidecar>) returns (ok: bool, sidecars: seq<Sidecar>)
    ensures ok <==> Aligned(txSidecar)
    ensures ok ==> sidecars == front + TxSidecars(txSidecar, txIndex, |front|, |txSidecar.blobs|)
  {
    sidecars := front;
    var idx := |front|;
    for j := 0 to |txSidecar.blobs|
      invariant j <= |txSidecar.commitments| && j <= |txSidecar.proofs|
      invariant idx == |front| + j
      invariant sidecars == front + TxSidecars(txSidecar, txIndex, |front|, j)
    {
      if j >= |txSidecar.commitments| || j >= |txSidecar.proofs| {
        return false, sidecars;
      }
      sidecars := sidecars + [NumberedSidecar(txSidecar, txIndex, idx, j)];
      idx := idx + 1;
    }
    ok := true;
  }

  lemma {:induction false} FlattenStep(txs: seq<BscTxSidecar>, t: nat)
    requires t < |txs| && Flatten(txs[..t]).Fetched?
    ensures var tx, front := txs[t], Flatten(txs[..t]).sidecars;
      Flatten(txs[..t + 1]) == if HexToUint64(tx.txIndex).None? then Failed
                               else if !Aligned(tx) then Panicked
                               else Fetched(front + AllTxSidecars(tx, |front|))
  {
    assert txs[..t + 1][..t] == txs[..t];
  }

  method GetBlob(response: Option<seq<BscTxSidecar>>) returns (r: Fetched)
    ensures r == if response.None? then NotFound else Flatten(response.value)
  {
    if response.None? {
      return NotFound;
    }
    var txSidecars := response.value;
    var sidecars: seq<Sidecar> := [];
    for t := 0 to |txSidecars|
      invariant Flatten(txSidecars[..t]) == Fetched(sidecars)
    {
      FlattenStep(txSidecars, t);
      var txIndex := HexToUint64(txSidecars[t].txIndex);
      if txIndex.None? {
        FlattenFails(txSidecars, t + 1);
        return Failed;
      }
      var ok, longer := AppendTx(txSidecars[t], ToInt64(txIndex.value), sidecars);
      if !ok {
        FlattenFails(txSidecars, t + 1);
        return Panicked;
      }
      sidecars := longer;
    }
    assert txSidecars[..|txSidecars|] == txSidecars;
    return Fetched(sidecars);
  }

  predicate HasIndex(sc: Sidecar, i: nat) {
    StringToInt64(sc.index) == Some(i)
  }

  /** Every sidecar's index is its position in decimal. */
  ghost predicate Numbered(sidecars: seq<Sidecar>) {
    forall i: nat {:trigger HasIndex(sidecars[i], i)} :: i < |sidecars| ==> HasIndex(sidecars[i], i)
  }

  /** The running number of a flattened block is the position, across transactions. */
  lemma {:induction false} FlattenIsNumbered(txs: seq<BscTxSidecar>)
    requires Flatten(txs).Fetched? && |Flatten(txs).sidecars| <= INT64_LIMIT
    ensures Numbered(Flatten(txs).sidecars)
    decreases |txs|
  {
    if txs != [] {
      var last := |txs| - 1;
      var front := Flatten(txs[..last]).sidecars;
      FlattenIsNumbered(txs[..last]);
      NumberedFrom(txs[last], front);
    }
  }

  lemma {:induction false} NumberedFrom(tx: BscTxSidecar, front: seq<Sidecar>)
    requires Aligned(tx) && HexToUint64(tx.txIndex).Some?
    requires Numbered(front) && |front| + |tx.blobs| <= INT64_LIMIT
    ensures Numbered(front + AllTxSidecars(tx, |front|))
  {
    var all := front + AllTxSidecars(tx, |front|);
    forall i | |front| <= i < |all| ensures StringToInt64(all[i].index) == Some(i) {
      TxSidecarsAt(tx, ToInt64(HexToUint64(tx.txIndex).value), |front|, |tx.blobs|, i - |front|);
      assert all[i].index == Signed(i);
      Int64RoundTrip(i);
    }
  }

  /******* Which slot is due (sync) *******/

  /** How far the source chain has come: the latest slot with a block, and the latest final one. */
  datatype Head = Head(latest: uint64, finalized: uint64)

  datatype Lookup = Absent | Present(finalized: bool)

  /** What ETH answers for slot n: one that has no block reads like one that has none yet. */
  function LookUp(forked: bool, n: nat, head: Head): Lookup {
    if forked || head.latest < n then Absent else Present(n <= head.finalized)
  }

  datatype Due = NotYet | Fetch | Skip

  /** What the code makes of the answer, and of the latest slot asked for afterwards. */
  function DueOnEth(found: Lookup, n: nat, latest: nat): Due {
    match found
    case Present(finalized) => if finalized then Fetch else NotYet
    case Absent => if n >= latest then NotYet else Skip
  }

  /** The slot can be dealt with for good. */
  predicate Settled(eth: bool, forked: bool, n: uint64, head: Head) {
    if !eth then ToInt64(n) < ToInt64(head.finalized)
    else if forked then n < head.latest
    else n <= head.latest && n <= head.finalized
  }

  /** With the head moving on between the two questions: a slot is fetched only if it has a final block, and passed over exactly
      if it is behind the later head and has no block, or had none yet when first asked for. So a slot with a block is passed
      over exactly if its block, and a later one, came in between. */
  lemma {:induction false} PassedOverExactly(forked: bool, n: nat, first: Head, second: Head)
    requires first.latest <= second.latest
    ensures var due := DueOnEth(LookUp(forked, n, first), n, second.latest);
      && (due.Fetch? <==> !forked && n <= first.latest && n <= first.finalized)
      && (due.Skip? && !forked <==> !forked && first.latest < n < second.latest)
      && (forked ==> (due.Skip? <==> n < second.latest))
  {
  }

  /******* Attribution of blobs to transactions (populateBlobTxDetails) *******/

  /** Number of blobs of one transaction. */
  function BlobsOf(tx: Tx): nat {
    if tx.isBlobTx then |tx.blobHashes| else 0
  }

  /** Number of blobs of the first `t` transactions. */
  function PrefixCount(txs: seq<Tx>, t: nat): nat
    requires t <= |txs|
  {
    if t == 0 then 0 else PrefixCount(txs, t - 1) + BlobsOf(txs[t - 1])
  }

  lemma {:induction false} PrefixCountGrows(txs: seq<Tx>, t: nat, u: nat)
    requires t <= u <= |txs|
    ensures PrefixCount(txs, t) <= PrefixCount(txs, u)
    decreases u
  {
    if t < u {
      PrefixCountGrows(txs, t, u - 1);
    }
  }

  /** Blob `j` belongs to transaction `t`. */
  predicate Owns(txs: seq<Tx>, t: nat, j: nat) {
    t < |txs| && PrefixCount(txs, t) <= j < PrefixCount(txs, t + 1)
  }

  /** Row `row` with the details of transaction `t` for its blob number `k`. */
  function WithDetails(row: BlobRow, tx: Tx, k: nat): BlobRow
    requires k < |tx.blobHashes|
  {
    row.(txHash := tx.hash, toAddr := tx.to, versionedHash := tx.blobHashes[k])
  }

  /** Attribution touches no other columns. */
  predicate SameButDetails(a: BlobRow, b: BlobRow) {
    a == b.(txHash := a.txHash, toAddr := a.toAddr, versionedHash := a.versionedHash)
  }

  /** `out` is `row` with hash, recipient and versioned hash of this transaction's blob number `k`, column by column. */
  ghost predicate Carries(out: BlobRow, row: BlobRow, tx: Tx, k: int) {
    && 0 <= k < |tx.blobHashes| && out.txHash == tx.hash && out.toAddr == tx.to && out.versionedHash == tx.blobHashes[k]
    && out.id == row.id && out.key == row.key && out.txIndex == row.txIndex && out.kzgCommitment == row.kzgCommitment
    && out.kzgProof == row.kzgProof && out.inclusionProof == row.inclusionProof
  }

  lemma {:induction false} DetailsAreCarried(row: BlobRow, tx: Tx, k: nat)
    requires k < |tx.blobHashes|
    ensures Carries(WithDetails(row, tx, k), row, tx, k)
  {
  }

  /** Every blob is owned by exactly one transaction, and that one is a blob transaction. */
  lemma {:induction false} OwnerExists(txs: seq<Tx>, n: nat, j: nat)
    requires n <= |txs| && j < PrefixCount(txs, n)
    ensures exists t: nat :: Owns(txs, t, j)
    decreases n
  {
    if j < PrefixCount(txs, n - 1) {
      OwnerExists(txs, n - 1, j);
    } else {
      assert Owns(txs, n - 1, j);
    }
  }

  lemma {:induction false} OwnerIsUnique(txs: seq<Tx>, t: nat, u: nat, j: nat)
    requires Owns(txs, t, j) && Owns(txs, u, j)
    ensures t == u
  {
    if t < u {
      PrefixCountGrows(txs, t + 1, u);
    } else if u < t {
      PrefixCountGrows(txs, u + 1, t);
    }
  }

  /** Rows after attribution: blob j carries the details of its owner, rows beyond the last blob keep what they had. */
  ghost predicate AttributedRows(rows: seq<BlobRow>, txs: seq<Tx>, out: seq<BlobRow>) {
    && |out| == |rows|
    && (forall t: nat, j: nat :: Owns(txs, t, j) && j < |rows| ==> Carries(out[j], rows[j], txs[t], j - PrefixCount(txs, t)))
    && (forall j :: PrefixCount(txs, |txs|) <= j < |rows| ==> out[j] == rows[j])
  }

  /** Specification of the loop, as a value: None when a hash has no row to go to. */
  function Attributed(rows: seq<BlobRow>, txs: seq<Tx>): (r: Option<seq<BlobRow>>)
    ensures r.Some? <==> PrefixCount(txs, |txs|) <= |rows|
    ensures r.Some? ==> |r.value| == |rows|
    ensures r.Some? ==> forall j :: 0 <= j < |rows| ==> SameButDetails(r.value[j], rows[j])
  {
    if PrefixCount(txs, |txs|) > |rows| then None else
      Some(seq(|rows|, j requires 0 <= j < |rows| => RowDetails(rows[j], txs, |txs|, j)))
  }

  /** The details of blob `j`, looked up among the first `n` transactions. */
  function RowDetails(row: BlobRow, txs: seq<Tx>, n: nat, j: nat): (r: BlobRow)
    requires n <= |txs|
    ensures SameButDetails(r, row)
    decreases n
  {
    if n == 0 then row
    else if PrefixCount(txs, n - 1) <= j < PrefixCount(txs, n) then WithDetails(row, txs[n - 1], j - PrefixCount(txs, n - 1))
    else RowDetails(row, txs, n - 1, j)
  }

  lemma {:induction false} RowDetailsOfOwner(row: BlobRow, txs: seq<Tx>, n: nat, t: nat, j: nat)
    requires n <= |txs| && Owns(txs, t, j)
    ensures t < n ==> RowDetails(row, txs, n, j) == WithDetails(row, txs[t], j - PrefixCount(txs, t))
    ensures t >= n ==> RowDetails(row, txs, n, j) == row
    decreases n
  {
    if n > 0 {
      if Owns(txs, n - 1, j) {
        OwnerIsUnique(txs, t, n - 1, j);
      } else {
        RowDetailsOfOwner(row, txs, n - 1, t, j);
      }
    }
  }

  lemma {:induction false} RowDetailsBeyond(row: BlobRow, txs: seq<Tx>, n: nat, j: nat)
    requires n <= |txs| && j >= PrefixCount(txs, n)
    ensures RowDetails(row, txs, n, j) == row
    decreases n
  {
    if n > 0 {
      RowDetailsBeyond(row, txs, n - 1, j);
    }
  }

  /** The attribution gives each blob the hash, recipient and versioned hash of exactly the transaction that owns it. */
  lemma {:induction false} AttributionIsByOwner(rows: seq<BlobRow>, txs: seq<Tx>)
    requires PrefixCount(txs, |txs|) <= |rows|
    ensures AttributedRows(rows, txs, Attributed(rows, txs).value)
  {
    var out := Attributed(rows, txs).value;
    forall t: nat, j: nat | Owns(txs, t, j) && j < |rows|
      ensures Carries(out[j], rows[j], txs[t], j - PrefixCount(txs, t))
    {
      RowDetailsOfOwner(rows[j], txs, |txs|, t, j);
      DetailsAreCarried(rows[j], txs[t], j - PrefixCount(txs, t));
    }
    forall j | PrefixCount(txs, |txs|) <= j < |rows| ensures out[j] == rows[j] {
      RowDetailsBeyond(rows[j], txs, |txs|, j);
    }
  }

  /** Blob counts agree: no row is left without an owner and none is asked for out of bounds. */
  lemma {:induction false} AttributionCoversAll(rows: seq<BlobRow>, txs: seq<Tx>, j: nat)
    requires PrefixCount(txs, |txs|) == |rows| && j < |rows|
    ensures exists t: nat ::
      Owns(txs, t, j) && txs[t].isBlobTx && Carries(Attributed(rows, txs).value[j], rows[j], txs[t], j - PrefixCount(txs, t))
  {
    AttributionIsByOwner(rows, txs);
    OwnerExists(txs, |txs|, j);
    var t: nat :| Owns(txs, t, j);
    assert txs[t].isBlobTx;
  }

  method PopulateBlobTxDetails(blobs: seq<BlobRow>, txs: seq<Tx>) returns (ok: bool, blobsReturn: seq<BlobRow>)
    ensures ok <==> PrefixCount(txs, |txs|) <= |blobs|
    ensures ok ==> Attributed(blobs, txs) == Some(blobsReturn) && AttributedRows(blobs, txs, blobsReturn)
  {
    blobsReturn := blobs;
    var blobIndex := 0;
    for t := 0 to |txs|
      invariant blobIndex == PrefixCount(txs, t) <= |blobs| == |blobsReturn|
      invariant forall j :: 0 <= j < |blobs| ==> blobsReturn[j] == RowDetails(blobs[j], txs, t, j)
    {
      var tx := txs[t];
      ghost var before := blobsReturn;
      if tx.isBlobTx {
        for k := 0 to |tx.blobHashes|
          invariant blobIndex == PrefixCount(txs, t) + k <= |blobs| == |blobsReturn|
          invariant forall j :: 0 <= j < |blobs| && !(PrefixCount(txs, t) <= j < blobIndex) ==> blobsReturn[j] == before[j]
          invariant forall j :: PrefixCount(txs, t) <= j < blobIndex ==>
            blobsReturn[j] == WithDetails(blobs[j], tx, j - PrefixCount(txs, t))
        {
          if blobIndex >= |blobsReturn| {
            PrefixCountGrows(txs, t + 1, |txs|);
            return false, blobsReturn;
          }
          RowDetailsBeyond(blobs[blobIndex], txs, t, blobIndex);
          blobsReturn := blobsReturn[blobIndex := WithDetails(blobsReturn[blobIndex], tx, k)];
          blobIndex := blobIndex + 1;
        }
      }
    }
    ok := true;
    assert blobsReturn == Attributed(blobs, txs).value;
    AttributionIsByOwner(blobs, txs);
  }

  /******* Blob rows (toBlockAndBlobs) *******/

  /** A row before attribution; ETH rows carry the inclusion proof, BSC rows the transaction. */
  function BaseRow(eth: bool, slot: nat, sc: Sidecar): Option<BlobRow> {
    match StringToInt64(sc.index)
    case None => None
    case Some(index) => Some(
      if eth then BlobRow(0, BlobKey(slot, index), "", "", "", 0, sc.kzgCommitment, sc.kzgProof, JoinWithComma(sc.inclusionProof))
      else BlobRow(0, BlobKey(slot, index), sc.txHash, "", "", sc.txIndex, sc.kzgCommitment, sc.kzgProof, ""))
  }

  /** All values, or None when one is missing. */
  function All<T>(options: seq<Option<T>>): Option<seq<T>>
    decreases |options|
  {
    if options == [] then Some([]) else
      match All(options[..|options| - 1])
      case None => None
      case Some(front) =>
        match options[|options| - 1]
        case None => None
        case Some(v) => Some(front + [v])
  }

  lemma {:induction false} AllPresent<T>(options: seq<Option<T>>)
    requires forall i :: 0 <= i < |options| ==> options[i].Some?
    ensures All(options).Some? && |All(options).value| == |options|
    ensures forall i :: 0 <= i < |options| ==> options[i] == Some(All(options).value[i])
    decreases |options|
  {
    if options != [] {
      AllPresent(options[..|options| - 1]);
    }
  }

  lemma {:induction false} OneMissing<T>(options: seq<Option<T>>, n: nat)
    requires n < |options| && options[n].None?
    ensures All(options).None?
    decreases |options|
  {
    if n < |options| - 1 {
      OneMissing(options[..|options| - 1], n);
    }
  }

  function RowOptions(eth: bool, slot: nat, sidecars: seq<Sidecar>): (r: seq<Option<BlobRow>>)
    ensures |r| == |sidecars|
  {
    seq(|sidecars|, i requires 0 <= i < |sidecars| => BaseRow(eth, slot, sidecars[i]))
  }

  /** Blob rows of a block; None stands for an index that does not parse or an attribution out of bounds. */
  function ToBlobs(eth: bool, slot: nat, sidecars: seq<Sidecar>, txs: seq<Tx>): Option<seq<BlobRow>> {
    if sidecars == [] then Some([]) else
      match All(RowOptions(eth, slot, sidecars))
      case None => None
      case Some(rows) => Attributed(rows, txs)
  }

  method MakeBlobs(eth: bool, blockNumOrSlot: nat, sidecars: seq<Sidecar>, txs: seq<Tx>) returns (r: Option<seq<BlobRow>>)
    ensures r == ToBlobs(eth, blockNumOrSlot, sidecars, txs)
  {
    var blobsReturn: seq<BlobRow> := [];
    if |sidecars| == 0 {
      return Some(blobsReturn);
    }
    ghost var options := RowOptions(eth, blockNumOrSlot, sidecars);
    for i := 0 to |sidecars|
      invariant All(options[..i]) == Some(blobsReturn)
    {
      var b := BaseRow(eth, blockNumOrSlot, sidecars[i]);
      if b.None? {
        OneMissing(options, i);
        return None;
      }
      assert options[..i + 1][..i] == options[..i];
      blobsReturn := blobsReturn + [b.value];
    }
    assert options[..|sidecars|] == options;
    var ok, rows := PopulateBlobTxDetails(blobsReturn, txs);
    return if ok then Some(rows) else None;
  }

  /** With sidecars indexed by position and no more blob hashes than sidecars, row i is named after (slot, i). */
  lemma {:induction false} ToBlobsShape(eth: bool, slot: nat, sidecars: seq<Sidecar>, txs: seq<Tx>)
    requires Numbered(sidecars) && (sidecars == [] || PrefixCount(txs, |txs|) <= |sidecars|)
    ensures var r := ToBlobs(eth, slot, sidecars, txs);
      && r.Some? && |r.value| == |sidecars|
      && forall i :: 0 <= i < |sidecars| ==> r.value[i].key == BlobKey(slot, i) && r.value[i].id == 0
  {
    var options := RowOptions(eth, slot, sidecars);
    forall i | 0 <= i < |sidecars|
      ensures options[i].Some? && options[i].value.key == BlobKey(slot, i) && options[i].value.id == 0
    {
      assert HasIndex(sidecars[i], i);
    }
    AllPresent(options);
  }

  /** Row i of the slot, column by column: name and KZG columns of sidecar i, on ETH its inclusion proof, on BSC the index of its
      transaction; hash, recipient and versioned hash of the transaction that owns blob i, if one does. */
  ghost predicate HasColumns(eth: bool, slot: nat, sidecars: seq<Sidecar>, txs: seq<Tx>, i: nat, row: BlobRow) {
    && i < |sidecars| && row.key == BlobKey(slot, i)
    && row.kzgCommitment == sidecars[i].kzgCommitment && row.kzgProof == sidecars[i].kzgProof
    && row.inclusionProof == (if eth then JoinWithComma(sidecars[i].inclusionProof) else "")
    && row.txIndex == (if eth then 0 else sidecars[i].txIndex)
    && (forall t: nat :: Owns(txs, t, i) ==> OwnerShown(txs, t, i, row))
    && (PrefixCount(txs, |txs|) <= i ==>
          row.txHash == (if eth then "" else sidecars[i].txHash) && row.toAddr == "" && row.versionedHash == "")
  }

  ghost predicate OwnerShown(txs: seq<Tx>, t: nat, i: nat, row: BlobRow)
    requires Owns(txs, t, i)
  {
    && row.txHash == txs[t].hash && row.toAddr == txs[t].to
    && i - PrefixCount(txs, t) < |txs[t].blobHashes| && row.versionedHash == txs[t].blobHashes[i - PrefixCount(txs, t)]
  }

  lemma {:induction false} BaseRows(eth: bool, slot: nat, sidecars: seq<Sidecar>, txs: seq<Tx>, i: nat) returns (rows: seq<BlobRow>)
    requires ToBlobs(eth, slot, sidecars, txs).Some? && i < |sidecars|
    ensures |rows| == |sidecars| && Attributed(rows, txs) == ToBlobs(eth, slot, sidecars, txs)
    ensures BaseRow(eth, slot, sidecars[i]) == Some(rows[i])
  {
    var options := RowOptions(eth, slot, sidecars);
    forall k | 0 <= k < |options| ensures options[k].Some? {
      if options[k].None? {
        OneMissing(options, k);
      }
    }
    AllPresent(options);
    rows := All(options).value;
    assert options[i] == BaseRow(eth, slot, sidecars[i]);
  }

  /** The rows made for a slot have the columns of the chain, attribution included. */
  lemma {:induction false} ToBlobsColumns(eth: bool, slot: nat, sidecars: seq<Sidecar>, txs: seq<Tx>, i: nat)
    requires Numbered(sidecars) && ToBlobs(eth, slot, sidecars, txs).Some? && i < |sidecars|
    ensures |ToBlobs(eth, slot, sidecars, txs).value| == |sidecars|
    ensures HasColumns(eth, slot, sidecars, txs, i, ToBlobs(eth, slot, sidecars, txs).value[i])
  {
    hide StringToInt64, JoinWithComma, Attributed;
    assert HasIndex(sidecars[i], i);
    var rows := BaseRows(eth, slot, sidecars, txs, i);
    var out := Attributed(rows, txs).value;
    AttributionIsByOwner(rows, txs);
    forall t: nat | Owns(txs, t, i) ensures OwnerShown(txs, t, i, out[i]) {
      assert Carries(out[i], rows[i], txs[t], i - PrefixCount(txs, t));
    }
    assert SameButDetails(out[i], rows[i]);
  }
}
