/** Values shared by every module: heights, block references and blocks.
    A block is its coordinates and its parent link; payload bytes are not modelled. */
module Types {

  const HEIGHT_MAX: nat := 0xFFFF_FFFF_FFFF_FFFF

  /** A block height: an unsigned 64-bit integer. */
  type Height = n: nat | n <= HEIGHT_MAX

  datatype Option<+T> = None | Some(value: T)

  datatype Result<+T, +E> = Ok(value: T) | Err(error: E)

  function Max(a: nat, b: nat): (m: nat)
    ensures m >= a && m >= b && (m == a || m == b)
  {
    if a < b then b else a
  }

  datatype BlockRef = BlockRef(number: Height, hash: string)

  datatype Block = Block(number: Height, hash: string, parentNumber: Height, parentHash: string) {
    function Ref(): BlockRef {
      BlockRef(number, hash)
    }

    function ParentRef(): BlockRef {
      BlockRef(parentNumber, parentHash)
    }

    /** A root repeats its own height as its parent's: nothing exists below it. */
    predicate IsRoot() {
      parentNumber == number
    }
  }

  /** `b` names `a`, by height and hash, as what it was built on. */
  predicate Linked(a: Block, b: Block) {
    a.number == b.parentNumber && a.hash == b.parentHash
  }

  /** One input batch: blocks plus an optional finality report. */
  datatype Batch = Batch(blocks: seq<Block>, finalized: Option<BlockRef>)

  /** What a data source's stream yields: a batch, a fork signal, or any other error. */
  datatype StreamItem = Arrived(batch: Batch) | Forked(previous: seq<BlockRef>) | Broken

  /** A hash that may be written as an HTTP field value: HTAB, or anything from SP up but DEL. */
  predicate HeaderSafe(hash: string) {
    forall i :: 0 <= i < |hash| ==> hash[i] == '\t' || (' ' <= hash[i] && hash[i] != '\U{7f}')
  }

  predicate UsableHash(hash: string) {
    hash != "" && HeaderSafe(hash)
  }

  function Fold(c: char): char {
    if 'A' <= c <= 'Z' then c - 'A' + 'a' else c
  }

  predicate EqIgnoreAsciiCase(a: string, b: string) {
    |a| == |b| && forall i :: 0 <= i < |a| ==> Fold(a[i]) == Fold(b[i])
  }
}
