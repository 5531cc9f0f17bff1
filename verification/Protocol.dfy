/** The sync, resume, verify and re-upload protocol (syncer/syncer.go, syncer/verifier.go) as a state machine. Every action
    performs at most one persistent write; a crash may come between any two, and the two threads interleave freely. */
module Protocol {
  import opened Types
  import opened Dao
  import Chain
  import Checks
  import Checksum

  /** Content of a local directory, by blob name. */
  type Dir = map<BlobKey, string>

  /** Upload directory of a bundle, or the directory it is rebuilt in for verification. */
  datatype DirId = Local(b: BundleId) | Scratch(b: BundleId)

  /** The fixed surroundings: configuration, the immutable source chain, and libraries not modelled here. */
  datatype Env = Env(
    eth: bool, start: nat, threshold: int,
    sidecars: nat -> seq<Sidecar>, forked: nat -> bool, header: nat -> Header, txs: nat -> seq<Tx>,
    pack: Dir -> bytes, coding: Checksum.Coding, segmentSize: nat, base64: bytes -> string)
  {
    /** Sidecars come numbered by position, a slot without beacon block has none and exists on ETH only, and the execution
        block carries no more blob hashes than there are sidecars. */
    ghost predicate WellFormed() {
      && 0 < start && 0 < segmentSize && coding.WellFormed()
      && (forall n :: Chain.Numbered(sidecars(n)))
      && (forall n :: forked(n) ==> eth && sidecars(n) == [])
      && (forall n :: sidecars(n) == [] || Chain.PrefixCount(txs(n), |txs(n)|) <= |sidecars(n)|)
    }
  }

  /** Why a block was marked Verified. */
  datatype Evidence =
    | BundleMatched(b: BundleId, onChain: seq<string>)
    | BlobsMatched(b: BundleId, replies: seq<Checks.Reply>)
    | NoBlobsInBlock(b: BundleId)
    | NoBlobsInBundle(b: BundleId, upTo: nat)

  datatype Upload = Upload(b: BundleId, content: Dir)

  /** Where the sync thread stands while working on slot n. */
  datatype SyncPc =
    | SIdle
    | SDir(n: nat)                 // create the bundle directory
    | SRow(n: nat)                 // create the bundle row
    | SFiles(n: nat, i: nat)       // write blob file i
    | SUpload(n: nat)              // ask for the bundle, upload it
    | SRemove(n: nat)              // remove the directory
    | SMark(n: nat)                // mark the bundle Finalized
    | SSave(n: nat)                // save block and blobs

  /** Where the verify thread stands; v is the block being verified and b the bundle named on it. */
  datatype VerPc =
    | VIdle
    | VRead(v: nat, b: BundleId)
    | VPicked(v: nat, b: BundleId)
    | VScratch(v: nat, b: BundleId, n: nat, i: nat)
    | VCompare(v: nat, b: BundleId)
    | VMarkRange(v: nat, b: BundleId, e: Evidence)
    | VMarkOne(v: nat, b: BundleId, e: Evidence)
    | VSeal(v: nat, b: BundleId, e: Evidence)
    | VLeave(v: nat, b: BundleId)      // remove the rebuild directory
    | RDeprecate(v: nat, b: BundleId)
    | RDir(v: nat, b: BundleId, nb: BundleId)
    | RRow(v: nat, b: BundleId, nb: BundleId)
    | RFiles(v: nat, b: BundleId, nb: BundleId, n: nat, i: nat)
    | RSave(v: nat, b: BundleId, nb: BundleId, n: nat)
    | RUpload(v: nat, b: BundleId, nb: BundleId)
    | RRemove(v: nat, b: BundleId, nb: BundleId)
    | RMark(v: nat, b: BundleId, nb: BundleId)

  datatype Thread = Syncer | Verifier

  datatype Action =
    | Crash
    | Restart(interval: nat, detailed: bool)
    | Begin | MakeDir | MakeRow(now: int) | Found | Save | Fail
    | WriteFile(who: Thread) | FilesDone(who: Thread)
    | UploadDir(who: Thread, reported: bool) | Refused(who: Thread) | RemoveDir(who: Thread) | Mark(who: Thread)
    | Pick | Open | NothingStored | Stale(now: int) | Rebuild | Compare(onChain: seq<string>)
    | NoBlobs | CountOff | CheckReplies(replies: seq<Checks.Reply>)
    | MarkRange | MarkOne | Seal | Stop
    | Deprecate(now: int) | MakeNewDir | MakeNewRow(now: int) | SaveMoved

  datatype State = State(
    // persistent
    db: Tables, dirs: map<DirId, Dir>,
    // volatile
    up: bool, detail: BundleId, interval: nat, detailed: bool, sync: SyncPc, ver: VerPc,
    // history: the first slot not saved yet, why each block is Verified, what was uploaded, the bundles of this run and its
    // first slot, whether a re-upload ended with a Verified block above a moved one, and the tables as the last
    // re-upload found them
    next: nat, evidence: map<nat, Evidence>, uploads: set<Upload>, runStart: nat, tiles: seq<BundleId>, torn: bool,
    before: Tables)

  const NOWHERE := BundleId(0, 0, None)

  function Init(env: Env): State {
    State(EMPTY, map[], false, NOWHERE, 1, false, SIdle, VIdle, env.start, map[], {}, env.start, [], false, EMPTY)
  }

  /******* Values the code computes *******/

  ghost function NextBlockNumOrSlot(blocks: BlockTable, start: nat): nat {
    var latest := LatestSlot(blocks);
    if start <= latest then latest + 1 else start
  }

  /** The first slot that is not before the start, not saved and not below a saved one. With start 0 and empty tables slot 0 is
      passed over, because a missing row reads as slot 0. */
  ghost predicate LeastBeyond(blocks: BlockTable, start: nat, next: nat) {
    if start == 0 && blocks == map[] then next == 1
    else start <= next && (forall n :: n in blocks ==> n < next) && (next == start || next - 1 in blocks)
  }

  function FirstBundle(next: nat, interval: nat): BundleId {
    BundleId(next, if interval == 0 then next else next + interval - 1, None)
  }

  /** Tables and current bundle after LoadProgressAndResume; `pending` is the latest Finalizing uncalibrated bundle. */
  function Resume(db: Tables, next: nat, interval: nat, pending: Option<BundleId>): (Tables, BundleId) {
    match pending
    case None => (db, FirstBundle(next, interval))
    case Some(b) =>
      if next > b.hi then
        (UpdateBundleStatus(UpdateBlocksStatus(db, b.lo, b.hi, Skipped), b, Deprecated), FirstBundle(next, interval))
      else (db, BundleId(b.lo, b.hi, None))
  }

  ghost function LatestPending(bundles: BundleTable): Option<BundleId> {
    if exists b :: IsLatestPending(bundles, b) then
      var b :| IsLatestPending(bundles, b);
      Some(b)
    else None
  }

  /** A slot without beacon block has no header. */
  function HeaderAt(env: Env, n: nat): Header {
    if env.forked(n) then NO_HEADER else env.header(n)
  }

  function BlockOf(env: Env, n: nat, b: BundleId): BlockRow {
    BlockRow(0, n, HeaderAt(env, n), |env.sidecars(n)|, b, Processed)
  }

  function Rows(env: Env, n: nat): Option<seq<BlobRow>> {
    Chain.ToBlobs(env.eth, n, env.sidecars(n), env.txs(n))
  }

  /** Row i takes over the id of the i-th stored row of the slot. */
  function WithIds(rows: seq<BlobRow>, stored: seq<BlobRow>): (r: seq<BlobRow>)
    ensures |r| == |rows|
  {
    seq(|rows|, i requires 0 <= i < |rows| => if i < |stored| then rows[i].(id := stored[i].id) else rows[i])
  }

  /** The directory under that name, empty when it is new. */
  function Made(dirs: map<DirId, Dir>, d: DirId): map<DirId, Dir> {
    if d in dirs then dirs else dirs[d := map[]]
  }

  function Written(env: Env, dirs: map<DirId, Dir>, d: DirId, n: nat, i: nat): map<DirId, Dir>
    requires d in dirs && i < |env.sidecars(n)|
  {
    dirs[d := dirs[d][BlobKey(n, i) := env.sidecars(n)[i].blob]]
  }

  /******* The sync thread *******/

  ghost function SyncNext(env: Env, s: State, a: Action): Option<State> {
    if !s.up then None else
    var dir := Local(s.detail);
    match a
    case Begin =>
      var n := NextBlockNumOrSlot(s.db.blocks, env.start);
      if !s.sync.SIdle? then None
      else Some(s.(sync := if n == s.detail.lo then SDir(n) else SFiles(n, 0)))
    case MakeDir =>
      if !s.sync.SDir? then None
      else Some(s.(dirs := Made(s.dirs, dir), sync := SRow(s.sync.n)))
    case MakeRow(now) =>
      if !s.sync.SRow? then None
      else Some(s.(db := CreateBundle(s.db, s.detail, false, now), sync := SFiles(s.sync.n, 0)))
    case WriteFile(_) =>
      if !(s.sync.SFiles? && dir in s.dirs && s.sync.i < |env.sidecars(s.sync.n)|) then None
      else Some(s.(dirs := Written(env, s.dirs, dir, s.sync.n, s.sync.i), sync := SFiles(s.sync.n, s.sync.i + 1)))
    case FilesDone(_) =>
      if !(s.sync.SFiles? && (dir !in s.dirs || s.sync.i == |env.sidecars(s.sync.n)|)) then None
      else Some(s.(sync := if s.sync.n == s.detail.hi then SUpload(s.sync.n) else SSave(s.sync.n)))
    case Found =>
      if !s.sync.SUpload? then None else Some(s.(sync := SMark(s.sync.n)))
    case UploadDir(_, reported) =>
      if !(s.sync.SUpload? && dir in s.dirs && s.dirs[dir] != map[]) then None
      else Some(s.(uploads := s.uploads + {Upload(s.detail, s.dirs[dir])}, sync := if reported then SRemove(s.sync.n) else SIdle))
    case Refused(_) =>
      if !(s.sync.SUpload? && dir in s.dirs) then None else Some(s.(sync := SRemove(s.sync.n)))
    case RemoveDir(_) =>
      if !s.sync.SRemove? then None else Some(s.(dirs := s.dirs - {dir}, sync := SMark(s.sync.n)))
    case Mark(_) =>
      if !s.sync.SMark? then None
      else Some(s.(db := UpdateBundleStatus(s.db, s.detail, Finalized), sync := SSave(s.sync.n)))
    case Save =>
      if !(s.sync.SSave? && Rows(env, s.sync.n).Some? && s.sync.n + s.interval < UINT64_LIMIT) then None
      else
        var n := s.sync.n;
        var t := s.(db := SaveBlockAndBlob(s.db, BlockOf(env, n, s.detail), Rows(env, n).value), next := n + 1, sync := SIdle);
        if n == s.detail.hi then
          var following := FirstBundle(n + 1, s.interval);
          Some(t.(detail := following, tiles := s.tiles + [following]))
        else Some(t)
    case Fail => if s.sync.SIdle? then None else Some(s.(sync := SIdle))
    case _ => None
  }

  /******* The verify thread *******/

  /** The info of the whole bundle is asked for at its first block, or always when blobs are not checked one by one. */
  predicate AsksForBundle(s: State, v: nat, b: BundleId) {
    v == b.lo || !s.detailed
  }

  /** Blobs are checked one by one and the block has some. */
  predicate HasBlobs(s: State, v: nat) {
    s.detailed && v in s.db.blocks && s.db.blocks[v].blobCount != 0
  }

  /** A re-upload is moving the slots of its range. */
  predicate Moving(ver: VerPc) {
    ver.RFiles? || ver.RSave?
  }

  /** With the slots [b.lo, n) moved: slot y was, and the Verified slot x of the range lies above it. */
  predicate Overtaken(env: Env, blocks: BlockTable, b: BundleId, n: nat, y: nat, x: nat) {
    b.lo <= y < n && !env.forked(y) && y < x <= b.hi && x in blocks && blocks[x].status.Verified?
  }

  ghost predicate Broken(env: Env, blocks: BlockTable, b: BundleId, n: nat) {
    exists y: nat, x: nat :: Overtaken(env, blocks, b, n, y, x)
  }

  /** What `torn` becomes when the verify thread gives up. */
  ghost predicate TornByStop(env: Env, s: State) {
    s.torn || (Moving(s.ver) && Broken(env, s.db.blocks, s.ver.b, s.ver.n))
  }

  /** What `torn` becomes when slot n of the range has been dealt with; the last one ends the loop. */
  ghost predicate TornBySlot(env: Env, s: State, blocks: BlockTable)
    requires Moving(s.ver)
  {
    s.torn || (s.ver.n >= s.ver.b.hi && Broken(env, blocks, s.ver.b, s.ver.n + 1))
  }

  /** The rebuild directory is in use. */
  predicate Rebuilt(ver: VerPc) {
    ver.VScratch? || ver.VCompare? || ver.VLeave? || ((ver.VMarkRange? || ver.VSeal?) && ver.e.BundleMatched?)
  }

  /** The rebuild directory is removed when verifyBundleIntegrity returns. */
  function Leave(s: State): State {
    s.(dirs := if Rebuilt(s.ver) then s.dirs - {Scratch(s.ver.b)} else s.dirs, ver := VIdle)
  }

  ghost function VerifyNext(env: Env, s: State, a: Action): Option<State> {
    if !s.up then None else
    var ver := s.ver;
    match a
    case Pick =>
      if ver.VIdle? && exists v :: IsEarliestUnverified(s.db.blocks, v) then
        var v :| IsEarliestUnverified(s.db.blocks, v);
        Some(s.(ver := VRead(v, s.db.blocks[v].bundle)))
      else None
    case Open =>
      if !(ver.VRead? && ver.b in s.db.bundles && !s.db.bundles[ver.b].status.Finalizing?) then None
      else Some(s.(ver := VPicked(ver.v, ver.b)))
    case NothingStored =>
      if !(ver.VPicked? && AsksForBundle(s, ver.v, ver.b) && KeysBetween(s.db.blobs, ver.b.lo, ver.b.hi) == {}) then None
      else Some(s.(ver := VMarkRange(ver.v, ver.b, NoBlobsInBundle(ver.b, s.next))))
    case Stale(now) =>
      if !(ver.VPicked? && AsksForBundle(s, ver.v, ver.b) && ver.b in s.db.bundles) then None
      else if !(s.db.bundles[ver.b].created > 0 && now - s.db.bundles[ver.b].created > env.threshold) then None
      else Some(s.(ver := RDeprecate(ver.v, ver.b)))
    case Rebuild =>
      if !(ver.VPicked? && !s.detailed) then None
      else Some(s.(dirs := Made(s.dirs, Scratch(ver.b)), ver := VScratch(ver.v, ver.b, ver.b.lo, 0)))
    case WriteFile(_) =>
      if !(ver.VScratch? && Scratch(ver.b) in s.dirs && ver.i < |env.sidecars(ver.n)|) then None
      else Some(s.(dirs := Written(env, s.dirs, Scratch(ver.b), ver.n, ver.i), ver := VScratch(ver.v, ver.b, ver.n, ver.i + 1)))
    case FilesDone(_) =>
      if !(ver.VScratch? && ver.i == |env.sidecars(ver.n)|) then None
      else Some(s.(ver := if ver.n < ver.b.hi then VScratch(ver.v, ver.b, ver.n + 1, 0) else VCompare(ver.v, ver.b)))
    case Compare(onChain) =>
      if !(ver.VCompare? && Scratch(ver.b) in s.dirs && s.dirs[Scratch(ver.b)] != map[] && env.WellFormed()) then None
      else
        var expected := Checksum.HashList(env.coding, env.pack(s.dirs[Scratch(ver.b)]), env.segmentSize);
        if expected.None? then None
        else if Checks.ChecksumsMatch(env.base64, expected.value, onChain)
        then Some(s.(ver := VMarkRange(ver.v, ver.b, BundleMatched(ver.b, onChain))))
        else Some(Leave(s).(ver := RDeprecate(ver.v, ver.b)))
    case NoBlobs =>
      if !(ver.VPicked? && s.detailed && ver.v in s.db.blocks && s.db.blocks[ver.v].blobCount == 0) then None
      else Some(s.(ver := VMarkOne(ver.v, ver.b, NoBlobsInBlock(ver.b))))
    case CountOff =>
      if !(ver.VPicked? && HasBlobs(s, ver.v) && |RowsAt(s.db.blobs, ver.v)| != |env.sidecars(ver.v)|) then None
      else Some(s.(ver := RDeprecate(ver.v, ver.b)))
    case CheckReplies(replies) =>
      var metas := if ver.VIdle? then [] else RowsAt(s.db.blobs, ver.v);
      if !(ver.VPicked? && HasBlobs(s, ver.v) && |metas| == |env.sidecars(ver.v)| == |replies|) then None
      else
        (match Checks.CheckBlobs(env.coding.sha, env.sidecars(ver.v), metas, replies, |replies|)
         case Pass => Some(s.(ver := VMarkOne(ver.v, ver.b, BlobsMatched(ver.b, replies))))
         case Mismatch => Some(s.(ver := RDeprecate(ver.v, ver.b)))
         case Failed => None)
    case MarkRange =>
      if !ver.VMarkRange? then None
      else Some(s.(
        db := UpdateBlocksStatus(s.db, ver.b.lo, ver.b.hi, Verified),
        evidence := map n | n in s.evidence.Keys + s.db.blocks.Keys ::
          if n in s.db.blocks && ver.b.Covers(n) then ver.e else if n in s.evidence then s.evidence[n] else ver.e,
        ver := VSeal(ver.v, ver.b, ver.e)))
    case MarkOne =>
      if !ver.VMarkOne? then None
      else
        var t := s.(db := UpdateBlockStatus(s.db, ver.v, Verified), evidence := s.evidence[ver.v := ver.e]);
        Some(t.(ver := if ver.v == ver.b.hi then VSeal(ver.v, ver.b, ver.e) else VIdle))
    case Seal =>
      if !ver.VSeal? then None
      else Some(s.(db := UpdateBundleStatus(s.db, ver.b, Sealed),
                   ver := if ver.e.BundleMatched? then VLeave(ver.v, ver.b) else VIdle))
    case Stop =>
      if ver.VIdle? then None else Some(Leave(s).(torn := TornByStop(env, s)))
    case _ => None
  }

  /******* Re-uploading *******/

  ghost function ReuploadNext(env: Env, s: State, a: Action): Option<State> {
    if !s.up then None else
    var ver := s.ver;
    match a
    case Deprecate(now) =>
      if !ver.RDeprecate? then None
      else Some(s.(db := UpdateBundleStatus(s.db, ver.b, Deprecated), before := s.db,
                   ver := RDir(ver.v, ver.b, ver.b.(stamp := Some(now)))))
    case MakeNewDir =>
      if !ver.RDir? then None
      else Some(s.(dirs := Made(s.dirs, Local(ver.nb)), ver := RRow(ver.v, ver.b, ver.nb)))
    case MakeNewRow(now) =>
      if !ver.RRow? then None
      else Some(s.(db := CreateBundle(s.db, ver.nb, true, now), ver := RFiles(ver.v, ver.b, ver.nb, ver.b.lo, 0)))
    case WriteFile(_) =>
      if !(ver.RFiles? && Local(ver.nb) in s.dirs && ver.i < |env.sidecars(ver.n)|) then None
      else Some(s.(dirs := Written(env, s.dirs, Local(ver.nb), ver.n, ver.i), ver := RFiles(ver.v, ver.b, ver.nb, ver.n, ver.i + 1)))
    case FilesDone(_) =>
      if !(ver.RFiles? && ver.i == |env.sidecars(ver.n)|) then None
      else if env.forked(ver.n) then Some(s.(torn := TornBySlot(env, s, s.db.blocks), ver := Following(ver)))
      else Some(s.(ver := RSave(ver.v, ver.b, ver.nb, ver.n)))
    case SaveMoved =>
      if !(ver.RSave? && ver.n in s.db.blocks && Rows(env, ver.n).Some?) then None
      else
        var block := BlockOf(env, ver.n, ver.nb).(id := s.db.blocks[ver.n].id);
        var rows := WithIds(Rows(env, ver.n).value, RowsAt(s.db.blobs, ver.n));
        var db := SaveBlockAndBlob(s.db, block, rows);
        Some(s.(db := db, evidence := s.evidence - {ver.n}, torn := TornBySlot(env, s, db.blocks), ver := Following(ver)))
    case UploadDir(_, reported) =>
      if !(ver.RUpload? && Local(ver.nb) in s.dirs && s.dirs[Local(ver.nb)] != map[]) then None
      else Some(s.(uploads := s.uploads + {Upload(ver.nb, s.dirs[Local(ver.nb)])},
                   ver := if reported then RRemove(ver.v, ver.b, ver.nb) else VIdle))
    case Refused(_) =>
      if !(ver.RUpload? && Local(ver.nb) in s.dirs) then None else Some(s.(ver := RRemove(ver.v, ver.b, ver.nb)))
    case RemoveDir(_) =>
      if !ver.RRemove? then None else Some(s.(dirs := s.dirs - {Local(ver.nb)}, ver := RMark(ver.v, ver.b, ver.nb)))
    case Mark(_) =>
      if !ver.RMark? then None else Some(s.(db := UpdateBundleStatus(s.db, ver.nb, Finalized), ver := VIdle))
    case _ => None
  }

  /** The loop over the slots of the range goes on, or ends. */
  function Following(ver: VerPc): VerPc
    requires ver.RFiles? || ver.RSave?
  {
    if ver.n < ver.b.hi then RFiles(ver.v, ver.b, ver.nb, ver.n + 1, 0) else RUpload(ver.v, ver.b, ver.nb)
  }

  /******* The process and all steps *******/

  ghost function ProcessNext(env: Env, s: State, a: Action): Option<State> {
    match a
    case Crash =>
      if !s.up then None else Some(s.(up := false, sync := SIdle, ver := VIdle, torn := TornByStop(env, s)))
    case Restart(interval, detailed) =>
      var next := NextBlockNumOrSlot(s.db.blocks, env.start);
      if s.up || interval == 0 || next + interval >= UINT64_LIMIT then None
      else
        var (db, detail) := Resume(s.db, next, interval, LatestPending(s.db.bundles));
        Some(s.(db := db, up := true, detail := detail, interval := interval, detailed := detailed, sync := SIdle, ver := VIdle,
                runStart := next, tiles := [detail]))
    case _ => None
  }

  predicate OfProcess(a: Action) {
    a.Crash? || a.Restart?
  }

  predicate OfSyncer(a: Action) {
    || a.Begin? || a.MakeDir? || a.MakeRow? || a.Found? || a.Save? || a.Fail?
    || ((a.WriteFile? || a.FilesDone? || a.UploadDir? || a.Refused? || a.RemoveDir? || a.Mark?) && a.who.Syncer?)
  }

  predicate OfVerifier(a: Action) {
    !OfProcess(a) && !OfSyncer(a)
  }

  predicate Reuploading(ver: VerPc) {
    ver.RDeprecate? || ver.RDir? || ver.RRow? || ver.RFiles? || ver.RSave? || ver.RUpload? || ver.RRemove? || ver.RMark?
  }

  /** The state after one action, or None when it cannot happen. */
  ghost function Next(env: Env, s: State, a: Action): Option<State> {
    if OfProcess(a) then ProcessNext(env, s, a)
    else if OfSyncer(a) then SyncNext(env, s, a)
    else if Reuploading(s.ver) && !a.Stop? then ReuploadNext(env, s, a)
    else VerifyNext(env, s, a)
  }

  /** The state after a history of actions from the empty database. */
  ghost function Exec(env: Env, history: seq<Action>): Option<State>
    decreases |history|
  {
    if history == [] then Some(Init(env)) else
      match Exec(env, history[..|history| - 1])
      case None => None
      case Some(s) => Next(env, s, history[|history| - 1])
  }

  /** What a directory holds for the slots [lo, hi] when it is complete and nothing else is in it. */
  function SlotFiles(env: Env, n: nat, i: nat): Dir
    requires i <= |env.sidecars(n)|
  {
    if i == 0 then map[] else SlotFiles(env, n, i - 1)[BlobKey(n, i - 1) := env.sidecars(n)[i - 1].blob]
  }

  function Expected(env: Env, lo: nat, hi: int): Dir
    requires -1 <= hi
    decreases hi
  {
    if hi < lo then map[] else Expected(env, lo, hi - 1) + SlotFiles(env, hi, |env.sidecars(hi)|)
  }
}
