/** Values shared by every module: bytes, optional values, bundle and blob identities, and what the source chain returns. */
module Types {
  newtype byte = x: int | 0 <= x < 256

  type bytes = seq<byte>

  datatype Option<+T> = None | Some(value: T)

  const UINT64_LIMIT: int := 0x1_0000_0000_0000_0000
  const INT64_LIMIT: int := 0x8000_0000_0000_0000

  type uint64 = n: nat | n < UINT64_LIMIT

  /** The identity a bundle name stands for; `stamp` is the Unix time of a calibrated (re-uploaded) bundle. */
  datatype BundleId = BundleId(lo: nat, hi: nat, stamp: Option<int>) {
    predicate Covers(slot: int) {
      lo <= slot <= hi
    }

    predicate Plain() {
      stamp.None?
    }
  }

  /** The identity a blob name stands for. */
  datatype BlobKey = BlobKey(slot: nat, idx: int)

  /** One sidecar as the source chain serves it. */
  datatype Sidecar = Sidecar(
    index: string, blob: string, kzgCommitment: string, kzgProof: string,
    inclusionProof: seq<string>, txIndex: int, txHash: string)

  /** One execution-layer transaction, as far as blob attribution looks at it. */
  datatype Tx = Tx(isBlobTx: bool, hash: string, to: string, blobHashes: seq<string>)

  /** The header columns of a block row. */
  datatype Header = Header(
    root: string, parentRoot: string, stateRoot: string, bodyRoot: string,
    proposerIndex: nat, signature: string, elHeight: nat)

  const NO_HEADER := Header("", "", "", "", 0, "", 0)
}
