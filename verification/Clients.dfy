/** The remote parties behind the syncer and the service: the chain the blobs come from, the bundle service, and the chain that
    records checksums. */
module Clients {
  import opened Types
  import opened Protocol
  import Chain
  import Checks

  /** Objects of the bundle service by bundle and blob name. */
  type Objects = (BundleId, BlobKey) -> Option<string>

  /** Objects appear when a bundle is uploaded; they never change once stored. */
  ghost predicate Grows(a: Objects, b: Objects) {
    forall c, k :: a(c, k).Some? ==> b(c, k) == a(c, k)
  }

  /** What the bundle service answers when asked for a bundle; one that is finalized there, or created on the chain, may not be
      sealed on the chain yet. */
  datatype BundleInfo = NotExist | Unavailable | Known(onItsWay: bool)

  /** What the chain says of an object. */
  datatype ObjectMeta = ObjectMeta(isSealed: bool, checksums: seq<string>)

  /** What is known of a bundle after asking for it. */
  datatype Standing = Unknown | Nowhere | Waits | Arrived

  /** How an upload can end; a stored bundle may still be reported as an error. */
  datatype UploadResult = StoredAndReported | StoredOnly | ObjectExistsOrEmpty | UploadFailed {
    predicate IsStored() {
      StoredAndReported? || StoredOnly?
    }

    /** What finalizeBundle takes for success. */
    predicate Accepted() {
      StoredAndReported? || ObjectExistsOrEmpty?
    }
  }

  /** The source chain, as far as finality is concerned; any call may fail. */
  class SourceClient {
    const forked: nat -> bool
    var head: Chain.Head

    constructor (forked: nat -> bool, head: Chain.Head)
      ensures this.forked == forked && this.head == head
    {
      this.forked := forked;
      this.head := head;
    }

    method GetFinalizedBlockNum() returns (r: Option<uint64>)
      ensures r.Some? ==> r.value == head.finalized
    {
      if * {
        return None;
      }
      return Some(head.finalized);
    }

    method GetBeaconBlock(slot: nat) returns (r: Option<Chain.Lookup>)
      ensures r.Some? ==> r.value == Chain.LookUp(forked(slot), slot, head)
    {
      if * {
        return None;
      }
      return Some(Chain.LookUp(forked(slot), slot, head));
    }

    method GetLatestBeaconBlock() returns (r: Option<uint64>)
      ensures r.Some? ==> r.value == head.latest
    {
      if * {
        return None;
      }
      return Some(head.latest);
    }
  }

  /** The bundle service. A truthful one answers questions about bundles by what was uploaded; otherwise any answer may come.
      Objects may be missing, late or wrong in either case. */
  class BundleClient {
    const truthful: bool
    var bundles: set<BundleId>
    var objects: Objects
    ghost var told: BundleInfo    // the last answer about a bundle

    constructor (truthful: bool, bundles: set<BundleId>, objects: Objects)
      ensures this.truthful == truthful && this.bundles == bundles && this.objects == objects
    {
      this.truthful := truthful;
      this.bundles := bundles;
      this.objects := objects;
      this.told := Unavailable;
    }

    method GetBundleInfo(name: BundleId) returns (info: BundleInfo)
      modifies this`told
      ensures told == info
      ensures truthful && !info.Unavailable? ==> (info.NotExist? <==> name !in bundles)
    {
      info := *;
      if truthful && info.NotExist? != (name !in bundles) {
        info := Unavailable;
      }
      told := info;
    }

    /** Packs the directory and uploads the object; there must be a directory, and an empty one is refused. */
    method UploadAndFinalizeBundle(name: BundleId, dir: Option<Dir>) returns (result: UploadResult)
      modifies this
      ensures bundles == if result.IsStored() then old(bundles) + {name} else old(bundles)
      ensures Grows(old(objects), objects)
      ensures result.IsStored() ==> dir.Some? && dir.value != map[]
      ensures result.ObjectExistsOrEmpty? ==> dir.Some? && (truthful ==> name in bundles || dir.value == map[])
    {
      result := *;
      if dir.None? {
        return UploadFailed;
      }
      if dir.value == map[] {
        return if result.UploadFailed? then UploadFailed else ObjectExistsOrEmpty;
      }
      if truthful && result.ObjectExistsOrEmpty? && name !in bundles {
        return UploadFailed;
      }
      if result.IsStored() {
        var before := objects;
        bundles := bundles + {name};
        objects := (c, k) =>
          if before(c, k).None? && c == name && k in dir.value then Some(dir.value[k]) else before(c, k);
      }
    }

    method GetObject(name: BundleId, key: BlobKey) returns (r: Checks.Reply)
      ensures r.Unavailable? || r == match objects(name, key) case None => Checks.Missing case Some(text) => Checks.Object(text)
    {
      if * {
        return Checks.Unavailable;
      }
      var found := objects(name, key);
      return if found.Some? then Checks.Object(found.value) else Checks.Missing;
    }
  }

  /** The chain that stores the objects; it knows which are sealed, and records the checksums of each. */
  class ChainClient {
    const checksums: BundleId -> seq<string>
    var seals: set<BundleId>

    constructor (checksums: BundleId -> seq<string>, seals: set<BundleId>)
      ensures this.checksums == checksums && this.seals == seals
    {
      this.checksums := checksums;
      this.seals := seals;
    }

    /** None when the object is not there or the call fails. */
    method GetObjectMeta(name: BundleId) returns (meta: Option<ObjectMeta>)
      ensures meta.Some? ==> meta.value == ObjectMeta(name in seals, checksums(name))
    {
      if * {
        return None;
      }
      return Some(ObjectMeta(name in seals, checksums(name)));
    }
  }
}
