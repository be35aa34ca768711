/** Bytes, digests, the text form of a digest, and the notion of a hash collision
    that can be read off two finished computations. */
module Hashing {

  datatype Option<+T> = None | Some(value: T)

  datatype Result<+T, +E> = Ok(value: T) | Err(error: E)

  type Byte = x: int | 0 <= x < 256

  type Bytes = seq<Byte>

  const DIGEST_SIZE := 32

  type Digest = d: Bytes | |d| == DIGEST_SIZE witness seq(DIGEST_SIZE, (i: nat) => 0)

  /** SHA-256 is a parameter of every definition below: nothing is assumed about it
      beyond its output length, so every result holds for every such function. */
  type Sha256 = Bytes -> Digest

  /** A hash column or JSON field: either 64 lowercase hexadecimal digits, which stand
      in one-to-one correspondence with 32 bytes, or some other text. */
  datatype HashText = Hex(digest: Digest) | Malformed(text: string)

  /** Two different inputs, one from each collection, with the same digest. The
      collections are always the finite sets of inputs that two computations hash, so
      the statement names a collision that an observer of both runs can write down. */
  ghost predicate CollisionBetween(sha: Sha256, xs: set<Bytes>, ys: set<Bytes>) {
    exists x, y :: x in xs && y in ys && x != y && sha(x) == sha(y)
  }

  lemma CollisionGrows(sha: Sha256, xs: set<Bytes>, ys: set<Bytes>, xs': set<Bytes>, ys': set<Bytes>)
    requires xs <= xs' && ys <= ys'
    ensures CollisionBetween(sha, xs, ys) ==> CollisionBetween(sha, xs', ys')
  {
  }
}
