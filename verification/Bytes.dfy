/** Byte strings, and the two facts about joining them that the shell proofs use. */
module Bytes {
  newtype Byte = b: int | 0 <= b < 256

  type Blob = seq<Byte>

  datatype Option<+T> = None | Some(value: T)

  /** The concatenation of a list of chunks. */
  function Flatten(chunks: seq<Blob>): (r: Blob) {
    if chunks == [] then [] else Flatten(chunks[..|chunks| - 1]) + chunks[|chunks| - 1]
  }

  lemma FlattenSnoc(chunks: seq<Blob>, last: Blob)
    ensures Flatten(chunks + [last]) == Flatten(chunks) + last
  {
    assert (chunks + [last])[..|chunks|] == chunks;
  }

  /** Flattening fewer chunks gives a prefix. */
  lemma {:induction false} FlattenPrefix(chunks: seq<Blob>, n: nat)
    requires n <= |chunks|
    ensures Flatten(chunks[..n]) <= Flatten(chunks)
    decreases |chunks| - n
  {
    if n < |chunks| {
      FlattenPrefix(chunks, n + 1);
      assert chunks[..n + 1][..n] == chunks[..n];
    } else {
      assert chunks[..n] == chunks;
    }
  }

  function Min(a: nat, b: nat): nat {
    if a < b then a else b
  }

  /** The first `n` elements, or all of them when there are fewer. */
  function Take<T>(s: seq<T>, n: nat): seq<T> {
    s[..Min(n, |s|)]
  }
}
