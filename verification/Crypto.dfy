/** The two foreign primitives, left uninterpreted: every result below holds whatever they compute. */
module Crypto {
  import opened Machine
  import opened Encoding

  type Digest = s: seq<byte> | |s| == 32 witness seq(32, _ => 0)

  /** BLAKE3 with its default 32-byte output. */
  const Blake3: seq<byte> -> Digest

  /** Whether 32 bytes decode to an Ed25519 verifying key. */
  const Ed25519KeyOk: seq<byte> -> bool

  /** Whether `(key, message, signature)` verifies. */
  const Ed25519Verify: (seq<byte>, seq<byte>, seq<byte>) -> bool

  /** No two different members of `inputs` share a digest. Stated of the finitely many inputs a result is
      about: no function from byte strings to 32 bytes is injective on all of them. */
  ghost predicate CollisionFree(inputs: set<seq<byte>>) {
    forall x, y | x in inputs && y in inputs && Blake3(x) == Blake3(y) :: x == y
  }

  /** A streaming hasher: what has been fed so far. */
  class Hasher {
    var fed: seq<byte>

    constructor ()
      ensures fed == []
    {
      fed := [];
    }

    method Update(bs: seq<byte>)
      modifies this
      ensures fed == old(fed) + bs
    {
      fed := fed + bs;
    }

    method Finalize() returns (d: Digest)
      ensures d == Blake3(fed)
    {
      d := Blake3(fed);
    }
  }

  /** `blake3(le(ct) || le(it))` in hex: the header's commitment to the block's fee totals. */
  function FeeChecksum(ct: u64, it: u64): (s: Bytes)
    ensures |s| == 64
  {
    ToHex(Blake3(FeePreimage(ct, it)))
  }

  function FeePreimage(ct: u64, it: u64): seq<byte> {
    Le64(ct) + Le64(it)
  }

  lemma FeePreimageInjective(ct: u64, it: u64, ct': u64, it': u64)
    requires FeePreimage(ct, it) == FeePreimage(ct', it')
    ensures ct == ct' && it == it'
  {
    assert Le64(ct) == FeePreimage(ct, it)[..8] == Le64(ct');
    assert Le64(it) == FeePreimage(ct, it)[8..] == Le64(it');
    Le64Injective(ct, ct');
    Le64Injective(it, it');
  }
}
