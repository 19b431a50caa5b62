/** A chain's last block hash commits to its whole history (src/lib.rs:1149-1189, 1277-1300; src/hashlayout.rs). */
module TipHash {
  import opened Machine
  import opened Encoding
  import opened Crypto
  import opened Transaction
  import opened HashLayout
  import opened Ledger
  import opened Runs
  import opened Validation

  /** Everything hashed on the way to a chain's tip. */
  ghost function HashInputs(chain: seq<Block>): set<seq<byte>> {
    (set i | 0 <= i < |chain| :: EncoderOf(chain[i]).Preimage())
    + (set i, j | 0 <= i < |chain| && 0 <= j < |chain[i].transactions| :: IdPreimage(chain[i].transactions[j]))
  }

  /** The blocks agree on every hashed field, and on every transaction's payload and public key. Signatures may
      differ: nothing hashes them. */
  ghost predicate SameHistory(b: Block, c: Block) {
    && b.index == c.index && b.previousHash == c.previousHash && b.nonce == c.nonce && b.difficulty == c.difficulty
    && b.coinbaseConsumer == c.coinbaseConsumer && b.coinbaseIndustrial == c.coinbaseIndustrial
    && b.feeChecksum == c.feeChecksum && b.hash == c.hash
    && |b.transactions| == |c.transactions|
    && forall j | 0 <= j < |b.transactions| :: SameTx(b.transactions[j], c.transactions[j])
  }

  ghost predicate SameTx(tx: SignedTransaction, tx': SignedTransaction) {
    tx.payload == tx'.payload && tx.publicKey == tx'.publicKey
  }

  /** Every block of a valid chain has the widths at which the pre-image is injective. */
  lemma ValidBlockWidths(chain: seq<Block>, difficulty: nat, i: nat)
    requires ValidChain(chain, difficulty) && i < |chain|
    ensures EncoderOf(chain[i]).FixedWidths()
  {
  }

  lemma ValidChainInit(chain: seq<Block>, difficulty: nat)
    requires ValidChain(chain, difficulty) && chain != []
    ensures ValidChain(Init(chain), difficulty)
    ensures Last(chain).previousHash == PreviousHash(Init(chain)) && Last(chain).hash == BlockHash(Last(chain))
  {
  }

  lemma InputsInit(chain: seq<Block>)
    requires chain != []
    ensures HashInputs(Init(chain)) <= HashInputs(chain)
    ensures EncoderOf(Last(chain)).Preimage() in HashInputs(chain)
    ensures forall j | 0 <= j < |Last(chain).transactions| :: IdPreimage(Last(chain).transactions[j]) in HashInputs(chain)
  {
    hide IdPreimage, EncoderOf;
    assert Last(chain) == chain[|chain| - 1];
    forall p | p in HashInputs(Init(chain))
      ensures p in HashInputs(chain)
    {
      assert forall i | 0 <= i < |Init(chain)| :: Init(chain)[i] == chain[i];
    }
  }

  /** Equal hashes of two blocks, when nothing hashed collides: equal fields and transactions. */
  lemma SameHashSameBlock(b: Block, c: Block, inputs: set<seq<byte>>)
    requires b.hash == BlockHash(b) && c.hash == BlockHash(c) && b.hash == c.hash
    requires EncoderOf(b).FixedWidths() && EncoderOf(c).FixedWidths()
    requires CollisionFree(inputs)
    requires EncoderOf(b).Preimage() in inputs && EncoderOf(c).Preimage() in inputs
    requires forall j | 0 <= j < |b.transactions| :: IdPreimage(b.transactions[j]) in inputs
    requires forall j | 0 <= j < |c.transactions| :: IdPreimage(c.transactions[j]) in inputs
    ensures SameHistory(b, c)
  {
    hide BlockEncoder.Preimage, IdPreimage;
    var x, y := EncoderOf(b), EncoderOf(c);
    HexInjective(Blake3(x.Preimage()), Blake3(y.Preimage()));
    PreimageInjective(x, y);
    assert |x.txIds| == |y.txIds|;
    forall j | 0 <= j < |b.transactions|
      ensures SameTx(b.transactions[j], c.transactions[j])
    {
      assert x.txIds[j] == TxId(b.transactions[j]) && y.txIds[j] == TxId(c.transactions[j]);
      IdPreimageInjective(b.transactions[j], c.transactions[j]);
    }
  }

  /** Two valid chains of equal length with the same tip hash are the same history, block by block. */
  lemma {:induction false} TipCommitsToHistory(x: seq<Block>, y: seq<Block>, dx: nat, dy: nat)
    requires ValidChain(x, dx) && ValidChain(y, dy) && |x| == |y|
    requires x != [] ==> Last(x).hash == Last(y).hash
    requires CollisionFree(HashInputs(x) + HashInputs(y))
    ensures forall i | 0 <= i < |x| :: SameHistory(x[i], y[i])
  {
    hide ValidChain, SameHistory, BlockEncoder.FixedWidths, HashInputs, EncoderOf;
    if x != [] {
      var n := |x| - 1;
      ValidBlockWidths(x, dx, n);
      ValidBlockWidths(y, dy, n);
      ValidChainInit(x, dx);
      ValidChainInit(y, dy);
      InputsInit(x);
      InputsInit(y);
      SameHashSameBlock(x[n], y[n], HashInputs(x) + HashInputs(y));
      assert SameHistory(x[n], y[n]);
      PreviousHashesAgree(x, y);
      TipCommitsToHistory(Init(x), Init(y), dx, dy);
      assert forall i | 0 <= i < n :: Init(x)[i] == x[i] && Init(y)[i] == y[i];
    }
  }

  lemma PreviousHashesAgree(x: seq<Block>, y: seq<Block>)
    requires |x| == |y| > 0 && SameHistory(Last(x), Last(y))
    requires Last(x).previousHash == PreviousHash(Init(x)) && Last(y).previousHash == PreviousHash(Init(y))
    ensures Init(x) != [] ==> Last(Init(x)).hash == Last(Init(y)).hash
  {
  }
}
