/** The read side (service/blob.go): answers from the database and the bundle service, and a cache in front of them. */
module Service {
  import opened Types
  import opened Dao
  import opened BlobDb
  import opened Text
  import opened Checks
  import opened Clients

  datatype SignedHeader = SignedHeader(
    bodyRoot: string, parentRoot: string, stateRoot: string, proposerIndex: string, slot: string, signature: string)

  /** One sidecar as it is served. */
  datatype View = View(
    blob: string, index: string, inclusionProof: seq<string>, kzgCommitment: string, kzgProof: string,
    header: Option<SignedHeader>, txIndex: int, txHash: string)

  /** Refused is an error the request itself causes, CallFailed an error of the database or the bundle service. */
  datatype Answer = Served(views: seq<View>) | Refused | CallFailed | Panicked

  /******* The direct answer *******/

  function HeaderOf(eth: bool, block: BlockRow): Option<SignedHeader> {
    if !eth then None else
      Some(SignedHeader(
        "0x" + block.header.bodyRoot, "0x" + block.header.parentRoot, "0x" + block.header.stateRoot,
        Decimal(block.header.proposerIndex), Decimal(block.slot), "0x" + block.header.signature))
  }

  function ViewOf(eth: bool, block: BlockRow, meta: BlobRow, text: string): View {
    View(text, Signed(meta.key.idx), CommaItems(meta.inclusionProof), meta.kzgCommitment, meta.kzgProof, HeaderOf(eth, block),
      meta.txIndex, meta.txHash)
  }

  /** The sidecars of these rows, or None when the bundle has no object for one of them. */
  function Views(eth: bool, objects: Objects, block: BlockRow, metas: seq<BlobRow>): (r: Option<seq<View>>)
    ensures r.Some? ==> |r.value| == |metas|
  {
    if metas == [] then Some([]) else
      var last := |metas| - 1;
      match Views(eth, objects, block, metas[..last])
      case None => None
      case Some(front) =>
        match objects(block.bundle, metas[last].key)
        case None => None
        case Some(text) => Some(front + [ViewOf(eth, block, metas[last], text)])
  }

  function Metas(db: Tables, slot: nat, indices: seq<int>): seq<BlobRow> {
    if |indices| == 0 then RowsAt(db.blobs, slot) else RowsAtIndices(db.blobs, slot, indices)
  }

  /** The answer without cache, when no call fails. */
  function Direct(eth: bool, objects: Objects, db: Tables, slot: nat, indices: seq<int>): Answer {
    if slot !in db.blocks then Refused else
      match Views(eth, objects, db.blocks[slot], Metas(db, slot, indices))
      case None => Refused
      case Some(views) => Served(views)
  }

  lemma {:induction false} ViewsMeansEach(eth: bool, objects: Objects, block: BlockRow, metas: seq<BlobRow>)
    ensures Views(eth, objects, block, metas).Some? <==> forall i :: 0 <= i < |metas| ==> objects(block.bundle, metas[i].key).Some?
    ensures Views(eth, objects, block, metas).Some? ==>
      forall i :: 0 <= i < |metas| ==>
        Views(eth, objects, block, metas).value[i] == ViewOf(eth, block, metas[i], objects(block.bundle, metas[i].key).value)
    decreases |metas|
  {
    hide ViewOf;
    if metas != [] {
      var last := |metas| - 1;
      ViewsMeansEach(eth, objects, block, metas[..last]);
      assert metas == metas[..last] + [metas[last]];
    }
  }

  /******* The answer from the cache *******/

  /** The cached sidecars asked for, in the order asked for; the first index out of range decides. */
  function Pick(found: seq<View>, indices: seq<int>): (r: Answer)
    ensures r.Served? ==> |r.views| == |indices|
  {
    if indices == [] then Served([]) else
      var last := |indices| - 1;
      match Pick(found, indices[..last])
      case Served(front) =>
        if indices[last] >= |found| then Refused
        else if indices[last] < 0 then Panicked
        else Served(front + [found[indices[last]]])
      case other => other
  }

  function FromCache(found: seq<View>, indices: seq<int>): Answer {
    if |indices| == 0 then Served(found) else Pick(found, indices)
  }

  predicate Bounded(indices: seq<int>, n: nat) {
    forall i :: 0 <= i < |indices| ==> 0 <= indices[i] < n
  }

  predicate Increasing(indices: seq<int>) {
    forall i, j :: 0 <= i < j < |indices| ==> indices[i] < indices[j]
  }

  lemma {:induction false} PickMeansEach(found: seq<View>, indices: seq<int>)
    ensures Pick(found, indices).Served? <==> Bounded(indices, |found|)
    ensures Bounded(indices, |found|) ==>
      forall i :: 0 <= i < |indices| ==> Pick(found, indices).views[i] == found[indices[i]]
    decreases |indices|
  {
    if indices != [] {
      var last := |indices| - 1;
      PickMeansEach(found, indices[..last]);
      assert indices == indices[..last] + [indices[last]];
      if Bounded(indices, |found|) {
        assert Bounded(indices[..last], |found|);
      } else if Bounded(indices[..last], |found|) {
        assert !(0 <= indices[last] < |found|);
      }
    }
  }

  /** Index i is out of range and all before it are in range. */
  ghost predicate FirstOut(found: seq<View>, indices: seq<int>, i: nat) {
    i < |indices| && !(0 <= indices[i] < |found|) && Bounded(indices[..i], |found|)
  }

  /** The first index out of range decides: one too large is refused, a negative one panics. */
  lemma {:induction false} FirstOutDecides(found: seq<View>, indices: seq<int>, i: nat)
    requires FirstOut(found, indices, i)
    ensures Pick(found, indices) == if indices[i] < 0 then Panicked else Refused
  {
    PickMeansEach(found, indices[..i]);
    assert indices[..i + 1][..i] == indices[..i];
    PickStops(found, indices, i + 1);
  }

  /** The later indices do not matter once one is out of range. */
  lemma {:induction false} PickStops(found: seq<View>, indices: seq<int>, i: nat)
    requires i <= |indices| && !Pick(found, indices[..i]).Served?
    ensures Pick(found, indices) == Pick(found, indices[..i])
    decreases |indices|
  {
    if i < |indices| {
      var last := |indices| - 1;
      assert indices[..last][..i] == indices[..i];
      PickStops(found, indices[..last], i);
    } else {
      assert indices[..i] == indices;
    }
  }

  /******* When the two agree *******/

  /** The rows of the slot are numbered 0, 1, 2, ... */
  ghost predicate Dense(blobs: BlobTable, slot: nat) {
    forall i :: 0 <= i < |RowsAt(blobs, slot)| ==> RowsAt(blobs, slot)[i].key == BlobKey(slot, i)
  }

  /** The rows of the slot by index, and nothing beyond them. */
  lemma {:induction false} DenseKeys(blobs: BlobTable, slot: nat)
    requires KeyedBlobs(blobs) && Dense(blobs, slot)
    ensures forall k :: k in KeysAt(blobs, slot) <==> k.slot == slot && 0 <= k.idx < |RowsAt(blobs, slot)|
    ensures forall i :: 0 <= i < |RowsAt(blobs, slot)| ==> BlobKey(slot, i) in blobs && RowsAt(blobs, slot)[i] == blobs[BlobKey(slot, i)]
  {
    var rows, order := RowsAt(blobs, slot), InOrder(KeysAt(blobs, slot), slot);
    forall i | 0 <= i < |rows| ensures order[i] == BlobKey(slot, i) && order[i] in KeysAt(blobs, slot) && rows[i] == blobs[order[i]] {
      assert order[i] in order;
      assert rows[i] == blobs[order[i]];
    }
    forall k ensures k in KeysAt(blobs, slot) <==> k.slot == slot && 0 <= k.idx < |rows| {
      if k in KeysAt(blobs, slot) {
        assert k in order;
        var i :| 0 <= i < |order| && order[i] == k;
      }
      if k.slot == slot && 0 <= k.idx < |rows| {
        assert order[k.idx] == k;
      }
    }
  }

  /** The rows a query by index returns: exactly the listed ones, each once and ascending. */
  lemma {:induction false} RowsAtIndicesMeans(blobs: BlobTable, slot: nat, indices: seq<int>)
    requires KeyedBlobs(blobs) && Dense(blobs, slot)
    ensures var rows := RowsAtIndices(blobs, slot, indices);
      && (forall i :: 0 <= i < |rows| ==>
            && rows[i].key.slot == slot && 0 <= rows[i].key.idx < |RowsAt(blobs, slot)| && Mentions(indices, rows[i].key.idx)
            && rows[i] == RowsAt(blobs, slot)[rows[i].key.idx])
      && (forall i, j :: 0 <= i < j < |rows| ==> rows[i].key.idx < rows[j].key.idx)
      && (forall k :: 0 <= k < |indices| && 0 <= indices[k] < |RowsAt(blobs, slot)| ==>
            exists i :: 0 <= i < |rows| && rows[i].key.idx == indices[k])
  {
    DenseKeys(blobs, slot);
    var rows := RowsAtIndices(blobs, slot, indices);
    var keys := KeysAtIndices(blobs, slot, indices);
    var order := InOrder(keys, slot);
    forall i | 0 <= i < |rows| ensures order[i] in keys && rows[i].key == order[i] && order[i] in KeysAt(blobs, slot) {
      assert order[i] in order;
    }
    forall k | 0 <= k < |indices| && 0 <= indices[k] < |RowsAt(blobs, slot)|
      ensures exists i :: 0 <= i < |rows| && rows[i].key.idx == indices[k]
    {
      var key := BlobKey(slot, indices[k]);
      assert key in KeysAt(blobs, slot);
      assert key in keys;
      assert key in order;
      var i :| 0 <= i < |order| && order[i] == key;
      assert rows[i].key.idx == indices[k];
    }
  }

  function KeysInOrder(slot: nat, indices: seq<int>): seq<BlobKey> {
    seq(|indices|, i requires 0 <= i < |indices| => BlobKey(slot, indices[i]))
  }

  lemma {:induction false} IncreasingKeys(blobs: BlobTable, slot: nat, indices: seq<int>)
    requires KeyedBlobs(blobs) && Dense(blobs, slot) && Increasing(indices) && Bounded(indices, |RowsAt(blobs, slot)|)
    ensures InOrder(KeysAtIndices(blobs, slot, indices), slot) == KeysInOrder(slot, indices)
  {
    hide InOrder;
    DenseKeys(blobs, slot);
    var keys, order := KeysAtIndices(blobs, slot, indices), KeysInOrder(slot, indices);
    forall k ensures k in order <==> k in keys {
      if k in keys {
        var j :| 0 <= j < |indices| && indices[j] == k.idx;
        assert order[j] == k;
      }
      if k in order {
        var i :| 0 <= i < |order| && order[i] == k;
        assert k in KeysAt(blobs, slot);
        assert Mentions(indices, k.idx);
      }
    }
    AscendingIsUnique(InOrder(keys, slot), order, slot);
  }

  /** Strictly increasing indices in range select exactly the rows in that order. */
  lemma {:induction false} IncreasingRows(blobs: BlobTable, slot: nat, indices: seq<int>)
    requires KeyedBlobs(blobs) && Dense(blobs, slot) && Increasing(indices) && Bounded(indices, |RowsAt(blobs, slot)|)
    ensures RowsAtIndices(blobs, slot, indices) == seq(|indices|, i requires 0 <= i < |indices| => RowsAt(blobs, slot)[indices[i]])
  {
    hide InOrder;
    IncreasingKeys(blobs, slot, indices);
    DenseKeys(blobs, slot);
    var rows := RowsAtIndices(blobs, slot, indices);
    assert |rows| == |indices|;
    forall i | 0 <= i < |rows| ensures rows[i] == RowsAt(blobs, slot)[indices[i]] {
      assert rows[i] == blobs[BlobKey(slot, indices[i])];
    }
  }

  /** These are the sidecars of a saved slot with the objects that bundle c holds for them. */
  predicate FromBundle(eth: bool, objects: Objects, db: Tables, slot: nat, found: seq<View>, c: BundleId) {
    slot in db.blocks && Views(eth, objects, db.blocks[slot].(bundle := c), RowsAt(db.blobs, slot)) == Some(found)
  }

  /** Bundle b holds, for each of these rows, the object cached for it. */
  ghost predicate Held(objects: Objects, b: BundleId, rows: seq<BlobRow>, found: seq<View>) {
    forall i :: 0 <= i < |rows| ==>
      0 <= rows[i].key.idx < |found| && objects(b, rows[i].key) == Some(found[rows[i].key.idx].blob)
  }

  ghost predicate Lacks(objects: Objects, b: BundleId, rows: seq<BlobRow>) {
    exists i :: 0 <= i < |rows| && objects(b, rows[i].key).None?
  }

  lemma {:induction false} ViewShows(eth: bool, block: BlockRow, c: BundleId, meta: BlobRow, text: string)
    ensures var v := ViewOf(eth, block.(bundle := c), meta, text);
      v.blob == text && v.index == Signed(meta.key.idx) && v == ViewOf(eth, block, meta, text)
  {
    hide Signed, CommaItems, Decimal;
  }

  /** A cached sidecar is that of its row, whatever bundle its object came from. */
  lemma {:induction false} FoundMeans(eth: bool, objects: Objects, db: Tables, slot: nat, found: seq<View>, c: BundleId)
    requires Dense(db.blobs, slot) && FromBundle(eth, objects, db, slot, found, c)
    ensures |found| == |RowsAt(db.blobs, slot)|
    ensures forall j :: 0 <= j < |found| ==>
      && found[j].index == Signed(j) && objects(c, RowsAt(db.blobs, slot)[j].key) == Some(found[j].blob)
      && found[j] == ViewOf(eth, db.blocks[slot], RowsAt(db.blobs, slot)[j], found[j].blob)
  {
    hide ViewOf, Signed, RowsAt;
    var block, rows := db.blocks[slot], RowsAt(db.blobs, slot);
    ViewsMeansEach(eth, objects, block.(bundle := c), rows);
    forall j | 0 <= j < |found|
      ensures found[j].index == Signed(j) && objects(c, rows[j].key) == Some(found[j].blob)
      ensures found[j] == ViewOf(eth, block, rows[j], found[j].blob)
    {
      ViewShows(eth, block, c, rows[j], objects(c, rows[j].key).value);
    }
  }

  /** The rows asked for are rows of the slot, ascending. */
  lemma {:induction false} MetasMeans(db: Tables, slot: nat, indices: seq<int>)
    requires KeyedBlobs(db.blobs) && Dense(db.blobs, slot)
    ensures var metas, rows := Metas(db, slot, indices), RowsAt(db.blobs, slot);
      && (forall i :: 0 <= i < |metas| ==> 0 <= metas[i].key.idx < |rows| && metas[i] == rows[metas[i].key.idx])
      && (forall i, j :: 0 <= i < j < |metas| ==> metas[i].key.idx < metas[j].key.idx)
  {
    if |indices| != 0 {
      RowsAtIndicesMeans(db.blobs, slot, indices);
    }
  }

  /** The cached sidecars of these rows. */
  function Selected(found: seq<View>, metas: seq<BlobRow>): (r: seq<View>)
    requires forall i :: 0 <= i < |metas| ==> 0 <= metas[i].key.idx < |found|
    ensures |r| == |metas|
  {
    seq(|metas|, i requires 0 <= i < |metas| => found[metas[i].key.idx])
  }

  /** The direct answer consists of the cached sidecars exactly if the bundle named on the block holds their objects. */
  lemma {:induction false} DirectIfHeld(
      eth: bool, objects: Objects, db: Tables, slot: nat, found: seq<View>, c: BundleId, indices: seq<int>)
    requires KeyedBlobs(db.blobs) && Dense(db.blobs, slot) && FromBundle(eth, objects, db, slot, found, c)
    ensures var metas, b := Metas(db, slot, indices), db.blocks[slot].bundle;
      && (forall i :: 0 <= i < |metas| ==> 0 <= metas[i].key.idx < |found|)
      && (Direct(eth, objects, db, slot, indices) == Served(Selected(found, metas)) <==> Held(objects, b, metas, found))
      && (Direct(eth, objects, db, slot, indices).Refused? <==> Lacks(objects, b, metas))
  {
    hide ViewOf, RowsAt, Metas;
    var block, metas := db.blocks[slot], Metas(db, slot, indices);
    FoundMeans(eth, objects, db, slot, found, c);
    MetasMeans(db, slot, indices);
    ViewsMeansEach(eth, objects, block, metas);
    var views := Views(eth, objects, block, metas);
    if views.Some? {
      forall i | 0 <= i < |metas|
        ensures views.value[i] == found[metas[i].key.idx] <==>
          objects(block.bundle, metas[i].key) == Some(found[metas[i].key.idx].blob)
      {
        ViewShows(eth, block, block.bundle, metas[i], objects(block.bundle, metas[i].key).value);
        ViewShows(eth, block, block.bundle, metas[i], found[metas[i].key.idx].blob);
      }
      var selected := Selected(found, metas);
      if views.value == selected {
        forall i | 0 <= i < |metas| ensures objects(block.bundle, metas[i].key) == Some(found[metas[i].key.idx].blob) {
          assert views.value[i] == selected[i];
        }
      }
      if Held(objects, block.bundle, metas, found) {
        assert views.value == selected;
      }
    }
  }

  /** Increasing indices in range, or none, select the rows asked for from the cache. */
  lemma {:induction false} OrderedPicks(db: Tables, slot: nat, found: seq<View>, indices: seq<int>)
    requires KeyedBlobs(db.blobs) && Dense(db.blobs, slot) && |found| == |RowsAt(db.blobs, slot)|
    requires Increasing(indices) && Bounded(indices, |found|)
    ensures forall i :: 0 <= i < |Metas(db, slot, indices)| ==> 0 <= Metas(db, slot, indices)[i].key.idx < |found|
    ensures FromCache(found, indices) == Served(Selected(found, Metas(db, slot, indices)))
  {
    MetasMeans(db, slot, indices);
    if |indices| == 0 {
      assert Selected(found, Metas(db, slot, indices)) == found;
    } else {
      IncreasingRows(db.blobs, slot, indices);
      PickMeansEach(found, indices);
      assert Pick(found, indices).views == Selected(found, Metas(db, slot, indices));
    }
  }

  /** Each index listed has its place among the rows returned; with as many rows as indices, in the same order. */
  lemma {:induction false} SameOrder(
      found: seq<View>, picked: seq<View>, indices: seq<int>, rows: seq<BlobRow>, views: seq<View>)
    requires Bounded(indices, |found|) && |picked| == |indices| && |views| == |rows| && picked == views
    requires forall i :: 0 <= i < |picked| ==> picked[i] == found[indices[i]]
    requires forall i :: 0 <= i < |found| ==> found[i].index == Signed(i)
    requires forall i :: 0 <= i < |rows| ==> views[i].index == Signed(rows[i].key.idx)
    requires forall i, j :: 0 <= i < j < |rows| ==> rows[i].key.idx < rows[j].key.idx
    ensures Increasing(indices)
  {
    forall i | 0 <= i < |indices| ensures indices[i] == rows[i].key.idx {
      assert picked[i] == views[i];
      SignedIsInjective(indices[i], rows[i].key.idx);
    }
  }

  lemma {:induction false} ViewsCarryIndex(eth: bool, objects: Objects, block: BlockRow, metas: seq<BlobRow>)
    requires Views(eth, objects, block, metas).Some?
    ensures forall i :: 0 <= i < |metas| ==> Views(eth, objects, block, metas).value[i].index == Signed(metas[i].key.idx)
  {
    ViewsMeansEach(eth, objects, block, metas);
  }

  /** Cache and database can give the same sidecars only for increasing indices in range. */
  lemma {:induction false} SameSidecarsNeedOrder(
      eth: bool, objects: Objects, db: Tables, slot: nat, found: seq<View>, c: BundleId, indices: seq<int>)
    requires KeyedBlobs(db.blobs) && Dense(db.blobs, slot) && FromBundle(eth, objects, db, slot, found, c) && |indices| != 0
    requires Pick(found, indices).Served? && Pick(found, indices) == Direct(eth, objects, db, slot, indices)
    ensures Increasing(indices) && Bounded(indices, |found|)
  {
    hide ViewOf, Signed, RowsAt, RowsAtIndices;
    FoundMeans(eth, objects, db, slot, found, c);
    PickMeansEach(found, indices);
    MetasMeans(db, slot, indices);
    var rows, views := Metas(db, slot, indices), Direct(eth, objects, db, slot, indices).views;
    ViewsCarryIndex(eth, objects, db.blocks[slot], rows);
    SameOrder(found, views, indices, rows, views);
  }

  /** When a cached slot is answered as without cache. Asked in order and range, or for all: exactly if the bundle named on the
      block now holds the objects cached. Asked otherwise: only if both refuse. So while that bundle holds them, the two agree
      exactly for absent or strictly increasing indices in range. */
  lemma {:induction false} CacheAgreesExactly(
      eth: bool, objects: Objects, db: Tables, slot: nat, found: seq<View>, c: BundleId, indices: seq<int>)
    requires KeyedBlobs(db.blobs) && Dense(db.blobs, slot) && FromBundle(eth, objects, db, slot, found, c)
    ensures var b, metas := db.blocks[slot].bundle, Metas(db, slot, indices);
      FromCache(found, indices) == Direct(eth, objects, db, slot, indices) <==>
        if Increasing(indices) && Bounded(indices, |found|) then Held(objects, b, metas, found)
        else FromCache(found, indices).Refused? && Lacks(objects, b, metas)
    ensures Held(objects, db.blocks[slot].bundle, RowsAt(db.blobs, slot), found) ==>
      (FromCache(found, indices) == Direct(eth, objects, db, slot, indices) <==> Increasing(indices) && Bounded(indices, |found|))
  {
    hide ViewOf, RowsAt, RowsAtIndices, Views;
    FoundMeans(eth, objects, db, slot, found, c);
    DirectIfHeld(eth, objects, db, slot, found, c, indices);
    MetasMeans(db, slot, indices);
    if Increasing(indices) && Bounded(indices, |found|) {
      OrderedPicks(db, slot, found, indices);
    } else if FromCache(found, indices) == Direct(eth, objects, db, slot, indices) && FromCache(found, indices).Served? {
      SameSidecarsNeedOrder(eth, objects, db, slot, found, c, indices);
    }
  }

  /******* The service *******/

  class Cache {
    var entries: map<nat, seq<View>>

    constructor ()
      ensures entries == map[]
    {
      entries := map[];
    }

    method Get(key: nat) returns (found: Option<seq<View>>)
      ensures found == if key in entries then Some(entries[key]) else None
    {
      return if key in entries then Some(entries[key]) else None;
    }

    /** Any other entries may be dropped to make room. */
    method Set(key: nat, value: seq<View>)
      modifies this
      ensures key in entries && Shrinks(old(entries)[key := value], entries)
    {
      var dropped: set<nat> := *;
      entries := (entries - dropped)[key := value];
    }
  }

  ghost predicate Shrinks(before: map<nat, seq<View>>, after: map<nat, seq<View>>) {
    forall n :: n in after ==> n in before && after[n] == before[n]
  }

  /******* Runs of the server *******/

  datatype Server = Server(db: Tables, objects: Objects, entries: map<nat, seq<View>>)

  datatype Event = Request(slot: nat, indices: seq<int>, answer: Answer) | Drop | Change

  function Answered(eth: bool, s: Server, slot: nat, indices: seq<int>): Answer {
    if slot in s.entries then FromCache(s.entries[slot], indices) else Direct(eth, s.objects, s.db, slot, indices)
  }

  /** The slots already saved keep their rows and headers; the bundles named on them may change. */
  ghost predicate Evolves(a: Tables, b: Tables) {
    forall n :: n in a.blocks ==>
      && n in b.blocks && b.blocks[n].slot == a.blocks[n].slot && b.blocks[n].header == a.blocks[n].header
      && SameRows(RowsAt(a.blobs, n), RowsAt(b.blobs, n))
  }

  ghost predicate SameRows(a: seq<BlobRow>, b: seq<BlobRow>) {
    |a| == |b| && forall i :: 0 <= i < |a| ==> a[i].(id := 0) == b[i].(id := 0)
  }

  /** One event: a request answered by the code, entries dropped from the cache, or the archive changing tables and objects.
      Errors leave the cache as it was. */
  ghost predicate Step(eth: bool, s: Server, e: Event, t: Server) {
    match e
    case Request(slot, indices, answer) =>
      && t.db == s.db && t.objects == s.objects && (answer.CallFailed? || answer == Answered(eth, s, slot, indices))
      && (if |indices| == 0 && answer.Served? then slot in t.entries && Shrinks(s.entries[slot := answer.views], t.entries)
          else t.entries == s.entries)
    case Drop => t.db == s.db && t.objects == s.objects && Shrinks(s.entries, t.entries)
    case Change => t.entries == s.entries && Evolves(s.db, t.db) && Grows(s.objects, t.objects)
  }

  /** Whatever is cached for a slot was put together from one bundle, not necessarily the one named on the block now. */
  ghost predicate Agrees(eth: bool, s: Server) {
    forall n :: n in s.entries ==> exists c :: FromBundle(eth, s.objects, s.db, n, s.entries[n], c)
  }

  lemma {:induction false} StillThere(before: Objects, after: Objects, c: BundleId, k: BlobKey)
    requires Grows(before, after) && before(c, k).Some?
    ensures after(c, k) == before(c, k)
  {
  }

  lemma {:induction false} SameViews(
      eth: bool, before: Objects, after: Objects, a: BlockRow, b: BlockRow, rowsA: seq<BlobRow>, rowsB: seq<BlobRow>)
    requires b == a.(id := b.id, blobCount := b.blobCount, status := b.status) && SameRows(rowsA, rowsB) && Grows(before, after)
    requires Views(eth, before, a, rowsA).Some?
    ensures Views(eth, after, b, rowsB) == Views(eth, before, a, rowsA)
    decreases |rowsA|
  {
    hide ViewOf, Grows;
    if rowsA != [] {
      var last := |rowsA| - 1;
      SameViews(eth, before, after, a, b, rowsA[..last], rowsB[..last]);
      assert rowsA[last].(id := 0) == rowsB[last].(id := 0);
      SameView(eth, a, b, rowsA[last], rowsB[last]);
      assert after(a.bundle, rowsA[last].key) == before(a.bundle, rowsA[last].key) by {
        StillThere(before, after, a.bundle, rowsA[last].key);
      }
    }
  }

  lemma {:induction false} SameView(eth: bool, a: BlockRow, b: BlockRow, rowA: BlobRow, rowB: BlobRow)
    requires b.slot == a.slot && b.header == a.header && rowA.(id := 0) == rowB.(id := 0)
    ensures rowA.key == rowB.key && forall text :: ViewOf(eth, b, rowB, text) == ViewOf(eth, a, rowA, text)
  {
  }

  lemma {:induction false} ChangeKeepsViews(eth: bool, s: Server, t: Server, n: nat, found: seq<View>, c: BundleId)
    requires Evolves(s.db, t.db) && Grows(s.objects, t.objects) && FromBundle(eth, s.objects, s.db, n, found, c)
    ensures FromBundle(eth, t.objects, t.db, n, found, c)
  {
    hide ViewOf, Views, RowsAt, Grows;
    SameViews(eth, s.objects, t.objects, s.db.blocks[n].(bundle := c), t.db.blocks[n].(bundle := c),
      RowsAt(s.db.blobs, n), RowsAt(t.db.blobs, n));
  }

  lemma {:induction false} DirectIsFromBundle(eth: bool, s: Server, slot: nat)
    requires Direct(eth, s.objects, s.db, slot, []).Served?
    ensures slot in s.db.blocks
    ensures FromBundle(eth, s.objects, s.db, slot, Direct(eth, s.objects, s.db, slot, []).views, s.db.blocks[slot].bundle)
  {
    hide Views, RowsAt;
    assert s.db.blocks[slot].(bundle := s.db.blocks[slot].bundle) == s.db.blocks[slot];
  }

  lemma {:induction false} RequestKeepsAgreement(eth: bool, s: Server, e: Event, t: Server)
    requires Agrees(eth, s) && e.Request? && Step(eth, s, e, t)
    ensures Agrees(eth, t)
  {
    hide FromBundle, Direct, Pick;
    forall n | n in t.entries ensures exists c :: FromBundle(eth, t.objects, t.db, n, t.entries[n], c) {
      if n in s.entries && t.entries[n] == s.entries[n] {
        var c :| FromBundle(eth, s.objects, s.db, n, s.entries[n], c);
      } else {
        assert n == e.slot && e.indices == [] && e.answer == Answered(eth, s, n, []) && t.entries[n] == e.answer.views;
        DirectIsFromBundle(eth, s, n);
      }
    }
  }

  /** Every event keeps the cache in agreement with tables and objects. */
  lemma {:induction false} StepKeepsAgreement(eth: bool, s: Server, e: Event, t: Server)
    requires Agrees(eth, s) && Step(eth, s, e, t)
    ensures Agrees(eth, t)
  {
    hide FromBundle, Answered, Evolves, Grows;
    if e.Request? {
      RequestKeepsAgreement(eth, s, e, t);
    } else {
      forall n | n in t.entries ensures exists c :: FromBundle(eth, t.objects, t.db, n, t.entries[n], c) {
        var c :| FromBundle(eth, s.objects, s.db, n, s.entries[n], c);
        if e.Change? {
          ChangeKeepsViews(eth, s, t, n, s.entries[n], c);
        }
      }
    }
  }

  /** A run of the server from an empty cache. */
  ghost predicate IsRun(eth: bool, states: seq<Server>, events: seq<Event>) {
    && |states| == |events| + 1 && states[0].entries == map[]
    && forall i :: 0 <= i < |events| ==> Step(eth, states[i], events[i], states[i + 1])
  }

  lemma {:induction false} RunAgrees(eth: bool, states: seq<Server>, events: seq<Event>, i: nat)
    requires IsRun(eth, states, events) && i < |states|
    ensures Agrees(eth, states[i])
    decreases i
  {
    hide Step, Agrees;
    if i > 0 {
      RunAgrees(eth, states, events, i - 1);
      StepKeepsAgreement(eth, states[i - 1], events[i - 1], states[i]);
    } else {
      EmptyAgrees(eth, states[0]);
    }
  }

  lemma {:induction false} EmptyAgrees(eth: bool, s: Server)
    requires s.entries == map[]
    ensures Agrees(eth, s)
  {
  }

  /** Over every sequence of requests, evictions, saves, re-uploads and uploads, a request for all sidecars of a slot, or for
      increasing indices in range, is answered as without cache, unless a call fails: exactly if the slot is not cached, or the
      bundle named on it at that moment holds the objects cached. */
  lemma {:induction false} RunsAnswerExactly(eth: bool, states: seq<Server>, events: seq<Event>, i: nat)
    requires IsRun(eth, states, events) && i < |events| && events[i].Request? && !events[i].answer.CallFailed?
    requires KeyedBlobs(states[i].db.blobs) && Dense(states[i].db.blobs, events[i].slot)
    requires Increasing(events[i].indices) && Bounded(events[i].indices, |RowsAt(states[i].db.blobs, events[i].slot)|)
    ensures var s, n, indices := states[i], events[i].slot, events[i].indices;
      && (n in s.entries ==> n in s.db.blocks)
      && (events[i].answer == Direct(eth, s.objects, s.db, n, indices) <==>
            (n in s.entries ==> Held(s.objects, s.db.blocks[n].bundle, Metas(s.db, n, indices), s.entries[n])))
  {
    hide ViewOf, Views, RowsAt, RowsAtIndices, Direct, FromCache, Held;
    RunAgrees(eth, states, events, i);
    assert Step(eth, states[i], events[i], states[i + 1]);
    var s, n, indices := states[i], events[i].slot, events[i].indices;
    if n in s.entries {
      var c :| FromBundle(eth, s.objects, s.db, n, s.entries[n], c);
      FoundMeans(eth, s.objects, s.db, n, s.entries[n], c);
      CacheAgreesExactly(eth, s.objects, s.db, n, s.entries[n], c, indices);
    }
  }

  /** What the code answers from the cache, compared with the direct answer. */
  lemma {:induction false} CachedAnswer(eth: bool, s: Server, slot: nat, indices: seq<int>)
    requires Agrees(eth, s) && KeyedBlobs(s.db.blobs) && slot in s.entries
    ensures slot in s.db.blocks
    ensures Dense(s.db.blobs, slot) && Held(s.objects, s.db.blocks[slot].bundle, RowsAt(s.db.blobs, slot), s.entries[slot]) ==>
      (FromCache(s.entries[slot], indices) == Direct(eth, s.objects, s.db, slot, indices) <==>
         Increasing(indices) && Bounded(indices, |s.entries[slot]|))
  {
    hide ViewOf, Views, RowsAt, RowsAtIndices, Direct, FromCache, Held, Dense;
    var c :| FromBundle(eth, s.objects, s.db, slot, s.entries[slot], c);
    if Dense(s.db.blobs, slot) {
      CacheAgreesExactly(eth, s.objects, s.db, slot, s.entries[slot], c, indices);
    }
  }

  class BlobService {
    const eth: bool
    const blobDB: BlobSvcDB
    const bundleClient: BundleClient
    const cacheService: Cache
    ghost var failures: nat    // calls that reported an error

    constructor (eth: bool, blobDB: BlobSvcDB, bundleClient: BundleClient, cacheService: Cache)
      requires blobDB.Valid() && cacheService.entries == map[]
      ensures Valid() && this.blobDB == blobDB && this.bundleClient == bundleClient && this.cacheService == cacheService
    {
      this.eth := eth;
      this.blobDB := blobDB;
      this.bundleClient := bundleClient;
      this.cacheService := cacheService;
      this.failures := 0;
    }

    ghost method Note(failed: bool)
      modifies this`failures
      ensures failures == if failed then old(failures) + 1 else old(failures)
    {
      if failed {
        failures := failures + 1;
      }
    }

    ghost predicate Valid()
      reads blobDB, bundleClient, cacheService
    {
      blobDB.Valid() && Agrees(eth, Now())
    }

    ghost function Now(): Server
      reads blobDB, bundleClient, cacheService
    {
      Server(blobDB.db, bundleClient.objects, cacheService.entries)
    }

    /** The answer of the code, unless a call fails: from the cache if the slot is there, else direct. Only complete answers
        enter the cache. */
    method GetBlobSidecarsByBlockNumOrSlot(blockNumOrSlot: nat, indices: seq<int>) returns (r: Answer)
      requires Valid()
      modifies this`failures, cacheService
      ensures Valid() && Step(eth, old(Now()), Request(blockNumOrSlot, indices, r), Now())
      ensures r.CallFailed? <==> old(failures) < failures
      ensures !r.CallFailed? && blockNumOrSlot !in old(cacheService.entries) ==>
        r == Direct(eth, bundleClient.objects, blobDB.db, blockNumOrSlot, indices)
      ensures !r.CallFailed? && blockNumOrSlot in old(cacheService.entries) && Dense(blobDB.db.blobs, blockNumOrSlot) ==>
        var found, rows := old(cacheService.entries)[blockNumOrSlot], RowsAt(blobDB.db.blobs, blockNumOrSlot);
        && blockNumOrSlot in blobDB.db.blocks
        && (Held(bundleClient.objects, blobDB.db.blocks[blockNumOrSlot].bundle, rows, found) ==>
              (r == Direct(eth, bundleClient.objects, blobDB.db, blockNumOrSlot, indices) <==>
                 Increasing(indices) && Bounded(indices, |found|)))
    {
      hide ViewOf, Direct, Agrees, FromBundle, Pick, Held, RowsAt, Dense;
      ghost var before := Now();
      var found := cacheService.Get(blockNumOrSlot);
      if found.Some? {
        r := Look(found.value, indices);
        CachedAnswer(eth, before, blockNumOrSlot, indices);
      } else {
        r := Fetch(blockNumOrSlot, indices);
        if r.Served? && |indices| == 0 {
          cacheService.Set(blockNumOrSlot, r.views);
        }
      }
      StepKeepsAgreement(eth, before, Request(blockNumOrSlot, indices, r), Now());
    }

    /** The answer from the database and the bundle service. */
    method Fetch(blockNumOrSlot: nat, indices: seq<int>) returns (r: Answer)
      modifies this`failures
      ensures failures == if r.CallFailed? then old(failures) + 1 else old(failures)
      ensures r.CallFailed? || r == Direct(eth, bundleClient.objects, blobDB.db, blockNumOrSlot, indices)
    {
      hide ViewOf;
      var block := blobDB.GetBlock(blockNumOrSlot);
      Note(block.Err? && block.error.Failed?);
      if block.Err? {
        return if block.error.NotFound? then Refused else CallFailed;
      }
      var blobMetas;
      if |indices| == 0 {
        blobMetas := blobDB.GetBlobByBlockID(blockNumOrSlot);
      } else {
        blobMetas := blobDB.GetBlobByBlockIDAndIndices(blockNumOrSlot, indices);
      }
      Note(blobMetas.Err?);
      if blobMetas.Err? {
        return CallFailed;
      }
      r := Collect(block.value, blobMetas.value);
    }

    method Look(blobsFound: seq<View>, indices: seq<int>) returns (r: Answer)
      ensures r == FromCache(blobsFound, indices) && !r.CallFailed?
    {
      if |indices| != 0 {
        var blobReturn: seq<View> := [];
        for i := 0 to |indices|
          invariant Pick(blobsFound, indices[..i]) == Served(blobReturn)
        {
          var idx := indices[i];
          assert indices[..i + 1][..i] == indices[..i];
          if idx >= |blobsFound| {
            PickStops(blobsFound, indices, i + 1);
            return Refused;
          }
          if idx < 0 {
            PickStops(blobsFound, indices, i + 1);
            return Panicked;
          }
          blobReturn := blobReturn + [blobsFound[idx]];
        }
        assert indices[..|indices|] == indices;
        return Served(blobReturn);
      }
      return Served(blobsFound);
    }

    method MakeView(block: BlockRow, meta: BlobRow, bundleObject: string) returns (view: View)
      ensures view == ViewOf(eth, block, meta, bundleObject)
    {
      var proof := SplitByComma(meta.inclusionProof);
      view := View(bundleObject, Signed(meta.key.idx), proof, meta.kzgCommitment, meta.kzgProof, HeaderOf(eth, block),
        meta.txIndex, meta.txHash);
    }

    /** Fetches the object of every row; the first one missing or out of reach ends it. */
    method Collect(block: BlockRow, blobMetas: seq<BlobRow>) returns (r: Answer)
      modifies this`failures
      ensures failures == if r.CallFailed? then old(failures) + 1 else old(failures)
      ensures r.CallFailed? ||
        r == match Views(eth, bundleClient.objects, block, blobMetas) case None => Refused case Some(views) => Served(views)
    {
      hide ViewOf;
      var sideCars: seq<View> := [];
      for i := 0 to |blobMetas|
        invariant Views(eth, bundleClient.objects, block, blobMetas[..i]) == Some(sideCars) && failures == old(failures)
      {
        assert blobMetas[..i + 1][..i] == blobMetas[..i];
        var meta := blobMetas[i];
        var bundleObject := bundleClient.GetObject(block.bundle, meta.key);
        if bundleObject.Missing? {
          ViewsMeansEach(eth, bundleClient.objects, block, blobMetas);
          return Refused;
        }
        Note(bundleObject.Unavailable?);
        if bundleObject.Unavailable? {
          return CallFailed;
        }
        var view := MakeView(block, meta, bundleObject.text);
        sideCars := sideCars + [view];
      }
      assert blobMetas[..|blobMetas|] == blobMetas;
      return Served(sideCars);
    }

    /** The answer for a block with that root; a root that no block has reads as slot 0. */
    method GetBlobSidecarsByRoot(root: string, indices: seq<int>) returns (r: Answer, ghost slot: nat)
      requires Valid()
      modifies this`failures, cacheService
      ensures Valid()
      ensures r.CallFailed? <==> old(failures) < failures
      ensures r.CallFailed? || Step(eth, old(Now()), Request(slot, indices, r), Now())
      ensures r.CallFailed? || (slot in blobDB.db.blocks && blobDB.db.blocks[slot].header.root == root) ||
        (slot == 0 && forall n :: n in blobDB.db.blocks ==> blobDB.db.blocks[n].header.root != root)
    {
      var block := blobDB.GetBlockByRoot(root);
      Note(block.Err?);
      if block.Err? {
        return CallFailed, 0;
      }
      slot := block.value.slot;
      r := GetBlobSidecarsByBlockNumOrSlot(block.value.slot, indices);
    }
  }
}
