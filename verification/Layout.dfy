/** The bytes themselves: where each field of everything hashed or signed stands
    (src/transaction.rs:14-153, src/hashlayout.rs:18-46, src/consensus.rs:12-77, tests/test_interop.py). */
module Layout {
  import opened Machine
  import opened Encoding
  import opened Crypto
  import opened Transaction
  import opened ProofOfWork
  import opened HashLayout
  import opened Ledger

  function Ascii(s: string): (bs: seq<byte>)
    ensures |bs| == |s|
  {
    seq(|s|, i requires 0 <= i < |s| => (s[i] as int) % 256)
  }

  // ---- words and digits ----

  /** The `i`-th byte of a word has weight `256^i`. */
  lemma {:induction false} ByteAtWeight(x: nat, i: nat)
    ensures Pow256(i) > 0 && ByteAt(x, i) == x / Pow256(i) % 256
  {
    if i > 0 {
      ByteAtWeight(x / 256, i - 1);
      DivideTwice(x, Pow256(i - 1));
    }
  }

  /** `u` is the quotient of `x` by `m` when `m * u` is the last multiple below. */
  lemma QuotientIs(x: nat, m: nat, u: nat)
    requires m > 0 && u * m <= x < (u + 1) * m
    ensures x / m == u
  {
    var q := x / m;
    assert q * m <= x < q * m + m;
    if q < u {
      ScaleMonotone(q + 1, u, m);
    } else if q > u {
      ScaleMonotone(u + 1, q, m);
    }
  }

  lemma DivideTwice(x: nat, w: nat)
    requires w > 0
    ensures x / 256 / w == x / (256 * w)
  {
    var q := x / 256;
    var u := q / w;
    assert u * w <= q < u * w + w;
    assert u * (256 * w) == 256 * (u * w) && (u + 1) * (256 * w) == 256 * (u * w + w);
    QuotientIs(x, 256 * w, u);
  }

  /** `to_le_bytes`: least significant byte first. */
  lemma Le64Bytes(x: u64, i: nat)
    requires i < 8
    ensures Pow256(i) > 0 && Le64(x)[i] == x / Pow256(i) % 256
  {
    ByteAtWeight(x, i);
  }

  lemma WordRoundTrip(x: u64)
    ensures FromLe(Le64(x)) == x
  {
    Pow256Of8();
    FromLeOfLe(8, x);
  }

  /** `to_hex`: two lower-case digits a byte, high nibble first. */
  lemma {:induction false} ToHexDigits(bs: seq<byte>, i: nat)
    requires i < |bs|
    ensures ToHex(bs)[2 * i] == Ascii("0123456789abcdef")[bs[i] / 16]
    ensures ToHex(bs)[2 * i + 1] == Ascii("0123456789abcdef")[bs[i] % 16]
  {
    if i == 0 {
      DigitIs(bs[0] / 16);
      DigitIs(bs[0] % 16);
    } else {
      ToHexDigits(bs[1..], i - 1);
      assert ToHex(bs)[2..] == ToHex(bs[1..]);
      assert ToHex(bs)[2 * i] == ToHex(bs)[2..][2 * (i - 1)];
      assert ToHex(bs)[2 * i + 1] == ToHex(bs)[2..][2 * (i - 1) + 1];
    }
  }

  lemma DigitIs(n: int)
    requires 0 <= n < 16
    ensures HexDigit(n) == Ascii("0123456789abcdef")[n]
  {
  }

  // ---- constants ----

  /** The tags, versions and zero strings of the source, as text. */
  lemma ConstantsAre()
    ensures DOMAIN_TAG == Ascii("THE_BLOCKv2|") + [1, 0, 0, 0]
    ensures |COINBASE| == 34 && |ZERO_HASH| == 64
    ensures forall i | 0 <= i < 34 :: COINBASE[i] == '0' as int
    ensures forall i | 0 <= i < 64 :: ZERO_HASH[i] == '0' as int
  {
    assert Le(4, CHAIN_ID) == [1, 0, 0, 0] by {
      LeStep(4, 1);
      LeStep(3, 0);
      LeStep(2, 0);
      LeStep(1, 0);
    }
    var tag := Ascii("THE_BLOCKv2|");
    assert tag[..6] == [84, 72, 69, 95, 66, 76];
    assert tag[6..] == [79, 67, 75, 118, 50, 124];
    assert tag == tag[..6] + tag[6..];
  }

  // ---- payload ----

  /** What follows the two strings, at fixed offsets. */
  lemma NumberSlices(p: RawTxPayload, s: seq<byte>)
    requires s == Stages(p, [])[2]
    ensures |s| == 41 + |p.memo|
    ensures s[..8] == Le64(p.amountConsumer) && s[8..16] == Le64(p.amountIndustrial) && s[16..24] == Le64(p.fee)
    ensures s[24] == p.feeSelector && s[25..33] == Le64(p.nonce)
    ensures s[33..41] == Le64(|p.memo|) && s[41..] == p.memo
  {
    hide Le64;
  }

  lemma StringSlices(p: RawTxPayload)
    ensures var bs := CanonicalPayloadBytes(p); var f := |p.from_|; var n := |p.from_| + |p.to|;
      && |bs| >= 16 + n
      && bs[..8] == Le64(f) && bs[8..8 + f] == p.from_
      && bs[8 + f..16 + f] == Le64(|p.to|) && bs[16 + f..16 + n] == p.to
      && bs[16 + n..] == Stages(p, [])[2]
  {
    hide CanonicalPayloadBytes, Le64, Stages;
    var bs, s := CanonicalPayloadBytes(p), Stages(p, []);
    var f := |p.from_|;
    StageSteps(p);
    Peel(bs, 0, Le64(f), p.from_ + s[1]);
    Peel(bs, 8, p.from_, s[1]);
    Peel(bs, 8 + f, Le64(|p.to|), p.to + s[2]);
    Peel(bs, 16 + f, p.to, s[2]);
  }

  lemma Peel(bs: seq<byte>, off: nat, field: seq<byte>, rest: seq<byte>)
    requires off <= |bs| && bs[off..] == field + rest
    ensures off + |field| <= |bs| && bs[off..off + |field|] == field && bs[off + |field|..] == rest
  {
    assert bs[off..off + |field|] == bs[off..][..|field|];
    assert bs[off + |field|..] == bs[off..][|field|..];
  }

  lemma StageSteps(p: RawTxPayload)
    ensures var s := Stages(p, []);
      && CanonicalPayloadBytes(p)[0..] == Le64(|p.from_|) + (p.from_ + s[1])
      && s[1] == Le64(|p.to|) + (p.to + s[2])
  {
    StagesAreTheEncoding(p, []);
    hide CanonicalPayloadBytes, Le64;
    var s := Stages(p, []);
    assert CanonicalPayloadBytes(p)[0..] == s[0];
    assert s[0] == Le64(|p.from_|) + (p.from_ + s[1]);
    assert s[1] == Le64(|p.to|) + (p.to + s[2]);
  }

  lemma Within(bs: seq<byte>, off: nat, lo: nat, hi: nat)
    requires off <= |bs| && lo <= hi <= |bs| - off
    ensures bs[off + lo..off + hi] == bs[off..][lo..hi]
  {
  }

  /** The payload in declaration order, by offset: each string behind its length, every integer eight bytes, the
      selector one. */
  lemma PayloadLayout(p: RawTxPayload)
    ensures var bs := CanonicalPayloadBytes(p); var f := |p.from_|; var n := |p.from_| + |p.to|;
      && |bs| == 57 + n + |p.memo|
      && FromLe(bs[..8]) == f && bs[8..8 + f] == p.from_
      && FromLe(bs[8 + f..16 + f]) == |p.to| && bs[16 + f..16 + n] == p.to
      && FromLe(bs[16 + n..24 + n]) == p.amountConsumer
      && FromLe(bs[24 + n..32 + n]) == p.amountIndustrial
      && FromLe(bs[32 + n..40 + n]) == p.fee
      && bs[40 + n] == p.feeSelector
      && FromLe(bs[41 + n..49 + n]) == p.nonce
      && FromLe(bs[49 + n..57 + n]) == |p.memo| && bs[57 + n..] == p.memo
  {
    hide CanonicalPayloadBytes, FromLe, Le64, Stages;
    var bs := CanonicalPayloadBytes(p);
    var n := |p.from_| + |p.to|;
    StringSlices(p);
    NumberSlices(p, bs[16 + n..]);
    WordRoundTrip(|p.from_|);
    WordRoundTrip(|p.to|);
    assert FromLe(bs[16 + n..24 + n]) == p.amountConsumer by { WordWithin(bs, 16 + n, 0, p.amountConsumer); }
    assert FromLe(bs[24 + n..32 + n]) == p.amountIndustrial by { WordWithin(bs, 16 + n, 8, p.amountIndustrial); }
    assert FromLe(bs[32 + n..40 + n]) == p.fee by { WordWithin(bs, 16 + n, 16, p.fee); }
    assert FromLe(bs[41 + n..49 + n]) == p.nonce by { WordWithin(bs, 16 + n, 25, p.nonce); }
    assert FromLe(bs[49 + n..57 + n]) == |p.memo| by { WordWithin(bs, 16 + n, 33, |p.memo|); }
    Within(bs, 16 + n, 41, 41 + |p.memo|);
  }

  lemma WordWithin(bs: seq<byte>, off: nat, k: nat, x: u64)
    requires off + k + 8 <= |bs| && bs[off..][k..k + 8] == Le64(x)
    ensures FromLe(bs[off + k..off + k + 8]) == x
  {
    Within(bs, off, k, k + 8);
    WordRoundTrip(x);
  }

  /** A transaction id hashes `TX`, the version 2, the payload and the key; a signature covers the domain tag and the
      payload. */
  lemma HashedAndSigned(tx: SignedTransaction)
    ensures TxId(tx) == Blake3(Ascii("TX") + [2] + CanonicalPayloadBytes(tx.payload) + tx.publicKey)
    ensures VerifySignedTx(tx) <==>
            && |tx.publicKey| == 32 && |tx.signature| == 64 && Ed25519KeyOk(tx.publicKey)
            && Ed25519Verify(tx.publicKey,
                             Ascii("THE_BLOCKv2|") + [1, 0, 0, 0] + CanonicalPayloadBytes(tx.payload), tx.signature)
  {
    hide CanonicalPayloadBytes;
    ConstantsAre();
    assert Ascii("TX") == [84, 88];
  }

  // ---- block header ----

  lemma {:induction false} ConcatAt(ids: seq<seq<byte>>, j: nat)
    requires forall i | 0 <= i < |ids| :: |ids[i]| == 32
    ensures |Concat(ids)| == 32 * |ids|
    ensures j < |ids| ==> Concat(ids)[32 * j..32 * j + 32] == ids[j]
  {
    if ids != [] {
      ConcatAt(ids[1..], if j > 0 then j - 1 else 0);
      if 0 < j < |ids| {
        assert Concat(ids)[32..] == Concat(ids[1..]);
        assert Concat(ids)[32 * j..32 * j + 32] == Concat(ids)[32..][32 * (j - 1)..32 * (j - 1) + 32];
      }
    }
  }

  /** The header's bytes, read as the block's own fields: index, predecessor, nonce, difficulty, the two coinbases, the
      fee checksum, and the transactions' ids in order. */
  lemma BlockLayout(b: Block)
    requires |b.previousHash| == 64 && |b.feeChecksum| == 64
    ensures var p := EncoderOf(b).Preimage();
      && |p| == 168 + 32 * |b.transactions|
      && FromLe(p[..8]) == b.index && p[8..72] == b.previousHash && FromLe(p[72..80]) == b.nonce
      && FromLe(p[80..88]) == b.difficulty && FromLe(p[88..96]) == b.coinbaseConsumer
      && FromLe(p[96..104]) == b.coinbaseIndustrial && p[104..168] == b.feeChecksum
      && forall j | 0 <= j < |b.transactions| :: p[168 + 32 * j..200 + 32 * j] == TxId(b.transactions[j])
  {
    var e := EncoderOf(b);
    assert e.FixedWidths();
    PreimageSlices(e);
    hide BlockEncoder.Preimage, BlockEncoder.FixedWidths, FromLe, Le64, TxId;
    WordRoundTrip(b.index);
    WordRoundTrip(b.nonce);
    WordRoundTrip(b.difficulty);
    WordRoundTrip(b.coinbaseConsumer);
    WordRoundTrip(b.coinbaseIndustrial);
    var p := e.Preimage();
    ConcatAt(e.txIds, 0);
    forall j | 0 <= j < |b.transactions|
      ensures p[168 + 32 * j..200 + 32 * j] == TxId(b.transactions[j])
    {
      ConcatAt(e.txIds, j);
      assert p[168 + 32 * j..200 + 32 * j] == p[168..][32 * j..32 * j + 32];
    }
  }

  /** A block's hash decodes to the digest of those bytes. */
  lemma BlockHashDecodes(b: Block)
    ensures HexToBytes(BlockHash(b)) == Some(Blake3(EncoderOf(b).Preimage()))
  {
    HexRoundTrip(Blake3(EncoderOf(b).Preimage()));
  }

  /** A fee checksum decodes to the digest of the consumer total, then the industrial. */
  lemma ChecksumDecodes(ct: u64, it: u64)
    ensures HexToBytes(FeeChecksum(ct, it)) == Some(Blake3(Le64(ct) + Le64(it)))
  {
    HexRoundTrip(Blake3(FeePreimage(ct, it)));
  }
}
