/** Octets, and what a channel of byte chunks still holds. */
module Bytes {
  newtype byte = x: int | 0 <= x < 256

  type bytes = seq<byte>

  function Flatten(chunks: seq<bytes>): bytes {
    if chunks == [] then [] else chunks[0] + Flatten(chunks[1..])
  }

  lemma {:induction false} FlattenAppend(chunks: seq<bytes>, chunk: bytes)
    ensures Flatten(chunks + [chunk]) == Flatten(chunks) + chunk
  {
    if chunks == [] {
      assert [chunk][1..] == [];
    } else {
      FlattenAppend(chunks[1..], chunk);
      assert (chunks + [chunk])[1..] == chunks[1..] + [chunk];
    }
  }

  /** The last `limit` bytes, or all of them. */
  function LastBytes(contents: bytes, limit: nat): bytes {
    if |contents| <= limit then contents else contents[|contents| - limit..]
  }

  /** Nothing that a cut removed is needed for the next one. */
  lemma LastBytesOfMore(contents: bytes, more: bytes, limit: nat)
    ensures LastBytes(LastBytes(contents, limit) + more, limit) == LastBytes(contents + more, limit)
  {
  }
}
