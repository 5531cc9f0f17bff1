/** The comparisons behind a verification (syncer/verifier.go): per blob, and per bundle through the on-chain checksums. */
module Checks {
  import opened Types
  import opened Text
  import opened Dao
  import Chain
  import Checksum

  /** What the bundle service answers when asked for one object. */
  datatype Reply = Object(text: string) | Missing | Unavailable

  datatype Outcome = Pass | Mismatch | Failed

  /******* Blob by blob *******/

  function CheckBlob(sha: bytes -> bytes, sc: Sidecar, meta: BlobRow, reply: Reply): Outcome {
    match reply
    case Missing => Mismatch
    case Unavailable => Failed
    case Object(text) =>
      match StringToInt64(sc.index)
      case None => Failed
      case Some(expected) =>
        if meta.key.idx != expected then Mismatch
        else if GenerateHash(sha, meta.kzgProof) != GenerateHash(sha, sc.kzgProof) then Mismatch
        else if GenerateHash(sha, text) != GenerateHash(sha, sc.blob) then Mismatch
        else Pass
  }

  /** Outcome for the first `n` blobs: the first blob that does not pass decides. */
  function CheckBlobs(sha: bytes -> bytes, sidecars: seq<Sidecar>, metas: seq<BlobRow>, replies: seq<Reply>, n: nat): Outcome
    requires n <= |sidecars| && n <= |metas| && n <= |replies|
  {
    if n == 0 then Pass else
      match CheckBlobs(sha, sidecars, metas, replies, n - 1)
      case Pass => CheckBlob(sha, sidecars[n - 1], metas[n - 1], replies[n - 1])
      case other => other
  }

  lemma {:induction false} PassMeansEachPasses(
      sha: bytes -> bytes, sidecars: seq<Sidecar>, metas: seq<BlobRow>, replies: seq<Reply>, n: nat)
    requires n <= |sidecars| && n <= |metas| && n <= |replies|
    ensures CheckBlobs(sha, sidecars, metas, replies, n) == Pass <==>
      forall i :: 0 <= i < n ==> CheckBlob(sha, sidecars[i], metas[i], replies[i]) == Pass
    decreases n
  {
    if n > 0 {
      PassMeansEachPasses(sha, sidecars, metas, replies, n - 1);
    }
  }

  /** A block fails because of one of its blobs. */
  lemma {:induction false} MismatchHasCause(
      sha: bytes -> bytes, sidecars: seq<Sidecar>, metas: seq<BlobRow>, replies: seq<Reply>, n: nat) returns (i: nat)
    requires n <= |sidecars| && n <= |metas| && n <= |replies|
    requires CheckBlobs(sha, sidecars, metas, replies, n) == Mismatch
    ensures i < n && CheckBlob(sha, sidecars[i], metas[i], replies[i]) == Mismatch
    decreases n
  {
    if CheckBlobs(sha, sidecars, metas, replies, n - 1) == Mismatch {
      i := MismatchHasCause(sha, sidecars, metas, replies, n - 1);
    } else {
      i := n - 1;
    }
  }

  /** Replies after the deciding blob do not matter. */
  lemma {:induction false} EarlierBlobDecides(
      sha: bytes -> bytes, sidecars: seq<Sidecar>, metas: seq<BlobRow>, seen: seq<Reply>, replies: seq<Reply>, n: nat)
    requires |seen| <= n <= |sidecars| && n <= |metas| && n <= |replies| && seen <= replies
    ensures CheckBlobs(sha, sidecars, metas, seen, |seen|) == CheckBlobs(sha, sidecars, metas, replies, |seen|)
    ensures CheckBlobs(sha, sidecars, metas, seen, |seen|) != Pass ==>
      CheckBlobs(sha, sidecars, metas, replies, n) == CheckBlobs(sha, sidecars, metas, seen, |seen|)
    decreases n
  {
    SamePrefix(sha, sidecars, metas, seen, replies, |seen|);
    if n > |seen| {
      EarlierBlobDecides(sha, sidecars, metas, seen, replies, n - 1);
    }
  }

  lemma {:induction false} SamePrefix(
      sha: bytes -> bytes, sidecars: seq<Sidecar>, metas: seq<BlobRow>, a: seq<Reply>, b: seq<Reply>, n: nat)
    requires n <= |sidecars| && n <= |metas| && n <= |a| && a <= b
    ensures CheckBlobs(sha, sidecars, metas, a, n) == CheckBlobs(sha, sidecars, metas, b, n)
    decreases n
  {
    if n > 0 {
      SamePrefix(sha, sidecars, metas, a, b, n - 1);
    }
  }

  /** The hash does not collide on the bytes of these two texts. */
  ghost predicate TellsApart(sha: bytes -> bytes, text: string, source: string) {
    Decode(text).Some? && Decode(source).Some? ==> Checksum.NoCollision(sha, [Decode(text).value, Decode(source).value])
  }

  /** Hexadecimal and the same up to prefix and case, or neither hexadecimal. */
  ghost predicate Alike(a: string, b: string) {
    SameHex(a, b) || (!IsHex(Digits(a)) && !IsHex(Digits(b)))
  }

  /** Short of a collision two texts hash alike exactly if they are the same hexadecimal up to prefix and case, or neither is
      hexadecimal at all. */
  lemma {:induction false} HashesAgreeExactly(sha: bytes -> bytes, text: string, source: string)
    requires TellsApart(sha, text, source)
    ensures GenerateHash(sha, text) == GenerateHash(sha, source) <==> Alike(text, source)
  {
    DecodesAlike(text, source);
    DecodesAlike(source, text);
    if Decode(text).Some? && Decode(source).Some? {
      var both := [Decode(text).value, Decode(source).value];
      assert both[0] == both[1] <==> sha(both[0]) == sha(both[1]);
    }
  }

  /** The verdict on one blob, by what index, KZG proof and object say. */
  lemma {:induction false} VerdictExactly(sha: bytes -> bytes, sc: Sidecar, meta: BlobRow, reply: Reply)
    requires TellsApart(sha, meta.kzgProof, sc.kzgProof)
    requires reply.Object? ==> TellsApart(sha, reply.text, sc.blob)
    ensures CheckBlob(sha, sc, meta, reply) == Pass <==>
      && reply.Object? && StringToInt64(sc.index) == Some(meta.key.idx)
      && Alike(meta.kzgProof, sc.kzgProof) && Alike(reply.text, sc.blob)
    ensures CheckBlob(sha, sc, meta, reply) == Failed <==>
      reply.Unavailable? || (reply.Object? && StringToInt64(sc.index).None?)
  {
    HashesAgreeExactly(sha, meta.kzgProof, sc.kzgProof);
    if reply.Object? {
      HashesAgreeExactly(sha, reply.text, sc.blob);
    }
  }

  /** A passed blob check means: every stored object is the source blob of the same index, up to prefix and case, and so is the
      stored KZG proof. */
  lemma {:induction false} PassedObjectsAgree(
      sha: bytes -> bytes, sidecars: seq<Sidecar>, metas: seq<BlobRow>, replies: seq<Reply>, i: nat)
    requires |sidecars| == |metas| == |replies| && i < |sidecars|
    requires Chain.Numbered(sidecars) && IsHex(Digits(sidecars[i].blob))
    requires CheckBlobs(sha, sidecars, metas, replies, |sidecars|) == Pass
    requires replies[i].Object? ==> TellsApart(sha, replies[i].text, sidecars[i].blob)
    ensures replies[i].Object? && metas[i].key.idx == i && SameHex(replies[i].text, sidecars[i].blob)
    ensures TellsApart(sha, metas[i].kzgProof, sidecars[i].kzgProof) ==> Alike(metas[i].kzgProof, sidecars[i].kzgProof)
  {
    PassMeansEachPasses(sha, sidecars, metas, replies, |sidecars|);
    assert CheckBlob(sha, sidecars[i], metas[i], replies[i]) == Pass;
    assert Chain.HasIndex(sidecars[i], i);
    HashesAgreeExactly(sha, replies[i].text, sidecars[i].blob);
    if TellsApart(sha, metas[i].kzgProof, sidecars[i].kzgProof) {
      HashesAgreeExactly(sha, metas[i].kzgProof, sidecars[i].kzgProof);
    }
  }

  /******* The on-chain checksums of a bundle *******/

  function LowerCase(c: char): char {
    if 'A' <= c <= 'Z' then (c as int - 'A' as int + 'a' as int) as char else c
  }

  /** Equality of texts up to the case of their letters. */
  predicate EqualFold(a: string, b: string) {
    |a| == |b| && forall i :: 0 <= i < |a| ==> LowerCase(a[i]) == LowerCase(b[i])
  }

  lemma {:induction false} EqualFoldMeans(a: string, b: string)
    ensures EqualFold(a, b) <==> SameButCase(a, b)
  {
    hide TwoCases;
    if |a| == |b| {
      forall i | 0 <= i < |a| ensures LowerCase(a[i]) == LowerCase(b[i]) <==> a[i] == b[i] || TwoCases(a[i], b[i]) {
        TwoCasesMeans(a[i], b[i]);
      }
    }
  }

  /** As many checksums as expected, each the base64 text of the expected one up to the case of letters. */
  ghost predicate ChecksumsMatch(base64: bytes -> string, expected: seq<bytes>, onChain: seq<string>) {
    |expected| == |onChain| && forall i :: 0 <= i < |expected| ==> SameButCase(base64(expected[i]), onChain[i])
  }

  /** What an honest chain records for an object with this hash list. */
  function Recorded(base64: bytes -> string, hashList: seq<bytes>): (r: seq<string>)
    ensures |r| == |hashList|
  {
    seq(|hashList|, i requires 0 <= i < |hashList| => base64(hashList[i]))
  }

  /** Some recorded checksum differs from the expected one in a character, and not by its case alone. */
  ghost predicate Differs(base64: bytes -> string, expected: seq<bytes>, onChain: seq<string>) {
    exists i, j :: 0 <= i < |expected| && i < |onChain| && 0 <= j < |onChain[i]| && j < |base64(expected[i])| &&
      base64(expected[i])[j] != onChain[i][j] && !TwoCases(base64(expected[i])[j], onChain[i][j])
  }

  method CompareChecksums(base64: bytes -> string, expectCheckSums: seq<bytes>, onChain: seq<string>) returns (same: bool)
    ensures same <==> ChecksumsMatch(base64, expectCheckSums, onChain)
    ensures |expectCheckSums| != |onChain| || Differs(base64, expectCheckSums, onChain) ==> !same
  {
    hide TwoCases, LowerCase, EqualFold;
    if |expectCheckSums| != |onChain| {
      return false;
    }
    for i := 0 to |expectCheckSums|
      invariant forall k :: 0 <= k < i ==> SameButCase(base64(expectCheckSums[k]), onChain[k])
    {
      EqualFoldMeans(base64(expectCheckSums[i]), onChain[i]);
      if !EqualFold(base64(expectCheckSums[i]), onChain[i]) {
        return false;
      }
    }
    return true;
  }
}
