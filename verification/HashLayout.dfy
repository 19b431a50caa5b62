/** The block hash pre-image (src/hashlayout.rs). */
module HashLayout {
  import opened Machine
  import opened Encoding
  import opened Crypto

  /** 64 ASCII zeros: the `previous_hash` of a first block. */
  const ZERO_HASH: Bytes := Repeat(48, 64)

  datatype BlockEncoder = BlockEncoder(
    index: u64,
    prev: Bytes,
    nonce: u64,
    difficulty: u64,
    coinC: u64,
    coinI: u64,
    feeChecksum: Bytes,
    txIds: seq<seq<byte>>)
  {
    ghost function Preimage(): seq<byte> {
      Le64(index) + prev + Le64(nonce) + Le64(difficulty) + Le64(coinC) + Le64(coinI)
      + feeChecksum + Concat(txIds)
    }

    ghost function HashHex(): (s: Bytes)
      ensures |s| == 64
    {
      ToHex(Blake3(Preimage()))
    }

    method Encode(h: Hasher)
      modifies h
      ensures h.fed == old(h.fed) + Preimage()
    {
      h.Update(Le64(index));
      h.Update(prev);
      h.Update(Le64(nonce));
      h.Update(Le64(difficulty));
      h.Update(Le64(coinC));
      h.Update(Le64(coinI));
      h.Update(feeChecksum);
      assert h.fed + Concat(txIds) == old(h.fed) + Preimage();
      EncodeIds(h);
    }

    method EncodeIds(h: Hasher)
      modifies h
      ensures h.fed == old(h.fed) + Concat(txIds)
    {
      ghost var goal := h.fed + Concat(txIds);
      var i := 0;
      while i < |txIds|
        invariant 0 <= i <= |txIds|
        invariant h.fed + Concat(txIds[i..]) == goal
      {
        ghost var before := h.fed;
        assert txIds[i..][1..] == txIds[i + 1..];
        h.Update(txIds[i]);
        assert h.fed + Concat(txIds[i + 1..]) == before + (txIds[i] + Concat(txIds[i + 1..]));
        i := i + 1;
      }
    }

    method Hash() returns (s: Bytes)
      ensures s == HashHex()
    {
      var h := new Hasher();
      Encode(h);
      assert h.fed == Preimage();
      var d := h.Finalize();
      s := ToHex(d);
    }

    /** The widths every block of a valid chain has. */
    ghost predicate FixedWidths() {
      && |prev| == 64
      && |feeChecksum| == 64
      && forall i | 0 <= i < |txIds| :: |txIds[i]| == 32
    }
  }

  ghost function Concat(ids: seq<seq<byte>>): seq<byte> {
    if ids == [] then [] else ids[0] + Concat(ids[1..])
  }

  lemma {:induction false} ConcatInjective(a: seq<seq<byte>>, b: seq<seq<byte>>)
    requires forall i | 0 <= i < |a| :: |a[i]| == 32
    requires forall i | 0 <= i < |b| :: |b[i]| == 32
    requires Concat(a) == Concat(b)
    ensures a == b
  {
    if a != [] && b != [] {
      assert a[0] == Concat(a)[..32] == b[0];
      assert Concat(a[1..]) == Concat(a)[32..] == Concat(b[1..]);
      ConcatInjective(a[1..], b[1..]);
      assert a == [a[0]] + a[1..];
      assert b == [b[0]] + b[1..];
    }
  }

  /** At those widths the byte stream determines every field, and the id list at any length. */
  lemma PreimageInjective(a: BlockEncoder, b: BlockEncoder)
    requires a.FixedWidths() && b.FixedWidths()
    requires a.Preimage() == b.Preimage()
    ensures a == b
  {
    PreimageSlices(a);
    PreimageSlices(b);
    Le64Injective(a.index, b.index);
    Le64Injective(a.nonce, b.nonce);
    Le64Injective(a.difficulty, b.difficulty);
    Le64Injective(a.coinC, b.coinC);
    Le64Injective(a.coinI, b.coinI);
    ConcatInjective(a.txIds, b.txIds);
  }

  lemma PreimageSlices(e: BlockEncoder)
    requires e.FixedWidths()
    ensures var p := e.Preimage();
      && |p| >= 168
      && p[..8] == Le64(e.index) && p[8..72] == e.prev && p[72..80] == Le64(e.nonce)
      && p[80..88] == Le64(e.difficulty) && p[88..96] == Le64(e.coinC) && p[96..104] == Le64(e.coinI)
      && p[104..168] == e.feeChecksum && p[168..] == Concat(e.txIds)
  {
  }

  /** Without the widths it does not: the last byte of the checksum can pass for a transaction id. */
  lemma PreimageNeedsWidths(a: BlockEncoder, b: BlockEncoder)
    requires a == BlockEncoder(0, ZERO_HASH, 0, 8, 0, 0, [7], [])
    requires b == a.(feeChecksum := [], txIds := [[7]])
    ensures a != b && a.Preimage() == b.Preimage()
  {
  }
}
