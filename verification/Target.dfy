/** Proof of work as the operations use it: the block's hash read as one number against `2^(256 - d)`
    (src/lib.rs:711-804, 845-848, 1187-1190). */
module Target {
  import opened Machine
  import opened Encoding
  import opened Crypto
  import opened Transaction
  import opened ProofOfWork
  import opened HashLayout
  import opened Order
  import opened Ledger
  import opened Reservation
  import opened Validation

  /** The hash in a block's header, decoded and read as one big-endian number; beyond 256 bits if it does not decode. */
  ghost function HashNumber(hash: Bytes): nat {
    match HexToBytes(hash)
    case Some(bytes) => BigEndian(bytes)
    case None => Pow2(256)
  }

  /** What a hash has to be at difficulty `d`. */
  ghost predicate Below(hash: Bytes, d: nat) {
    d <= 256 && HashNumber(hash) < Pow2(256 - d)
  }

  /** The bit test on a header is a bound on its hash. */
  lemma TargetIsBelow(e: BlockEncoder, d: nat)
    ensures MeetsTarget(e, d) <==> d <= 256 && BigEndian(Blake3(e.Preimage())) < Pow2(256 - d)
  {
    var h := Blake3(e.Preimage());
    LeadingZeroBitsWithin(h);
    if d <= 256 {
      MeetsTargetIffBelow(h, d);
    }
  }

  lemma HashBelow(b: Block, d: nat)
    requires b.hash == BlockHash(b)
    ensures MeetsTarget(EncoderOf(b), d) <==> Below(b.hash, d)
  {
    hide MeetsTarget, BigEndian, Pow2;
    HexRoundTrip(Blake3(EncoderOf(b).Preimage()));
    TargetIsBelow(EncoderOf(b), d);
  }

  // ---- mining ----

  /** The block `c` would be under nonce `n`. */
  lemma TriedHash(c: Block, n: u64, d: nat)
    ensures MeetsTarget(EncoderOf(c).(nonce := n), d) <==> Below(BlockHash(c.(nonce := n)), d)
  {
    hide MeetsTarget, Below;
    var b := c.(nonce := n);
    var sealed := b.(hash := BlockHash(b));
    assert EncoderOf(sealed) == EncoderOf(b) == EncoderOf(c).(nonce := n);
    HashBelow(sealed, d);
  }

  /** A mined block's hash is below the bound, and under every smaller nonce it is not. */
  lemma MinedIsBelow(s: State, miner: Bytes)
    requires Pushes(s, miner)
    ensures var b := PushedBlock(s, miner); var d := s.difficulty % TWO32;
      && Below(b.hash, d)
      && forall m: u64 | m < b.nonce :: !Below(BlockHash(b.(nonce := m)), d)
  {
    PushedExtends(s, miner);
    var b := PushedBlock(s, miner);
    var d := s.difficulty % TWO32;
    hide Below, MeetsTarget, BlockHash, BuiltFrom, PushedBlock, Pushes, Settle, SortedPool;
    assert EncoderOf(b).(nonce := b.nonce) == EncoderOf(b);
    HashBelow(b, d);
    forall m: u64 | m < b.nonce
      ensures !Below(BlockHash(b.(nonce := m)), d)
    {
      TriedHash(b, m, d);
    }
  }

  /** Every answer of `mine_block`. It fails on its fees exactly when the minted reward and the summed fees leave the
      word; on its nonces exactly when, short of that, the candidate's hash is below the bound under none of them; and
      on the miner exactly when, short of both, the settled balance and the coinbase leave the word. */
  lemma MineAnswers(s: State, miner: Bytes)
    ensures MineOutcome(s, miner) == Err(FeeOverflow) <==> FeesOverflow(s)
    ensures !FeesOverflow(s) <==> Candidate(s, miner).Ok?
    ensures MineOutcome(s, miner) == Err(NonceOverflow) <==>
            !FeesOverflow(s) && forall n: u64 :: !Below(BlockHash(Candidate(s, miner).value.(nonce := n)), s.difficulty % TWO32)
    ensures MineOutcome(s, miner) == Err(MinerOverflow) <==>
            Pushes(s, miner)
            && var settled := Settle(s.accounts, SortedPool(s.mempool)); var b := PushedBlock(s, miner);
               || BalAt(settled, miner, Consumer) + b.coinbaseConsumer >= TWO64
               || BalAt(settled, miner, Industrial) + b.coinbaseIndustrial >= TWO64
  {
    hide FirstNonce, SortedPool, Settle, Below, BlockHash, FeeChecksum;
    if Candidate(s, miner).Ok? {
      var c := Candidate(s, miner).value;
      var d := s.difficulty % TWO32;
      assert c.transactions[1..] == SortedPool(s.mempool);
      FirstNonceIsLeast(EncoderOf(c), d, 0);
      forall n: u64
        ensures MeetsTarget(EncoderOf(c).(nonce := n), d) <==> Below(BlockHash(c.(nonce := n)), d)
      {
        TriedHash(c, n, d);
      }
    }
  }

  // ---- both validators ----

  /** Valid but for its proof of work. */
  ghost predicate ValidUnmined(b: Block, prev: Bytes, difficulty: nat) {
    && difficulty < TWO64
    && ValidHeader(b, prev, difficulty, 0)
    && (forall j | 0 <= j < |b.transactions[1..]| :: TxValid(b.transactions[1..], j))
    && FeesMatch(b, ListFee(b.transactions[1..], Consumer), ListFee(b.transactions[1..], Industrial))
  }

  /** A block that is otherwise valid is valid if and only if its hash is below the bound. */
  lemma ValidIffBelow(b: Block, prev: Bytes, difficulty: nat)
    ensures ValidBlock(b, prev, difficulty) <==> ValidUnmined(b, prev, difficulty) && Below(b.hash, difficulty)
  {
    hide TxValid, FeesMatch, Below, BlockHash;
    if b.hash == BlockHash(b) {
      HashBelow(b, difficulty);
    }
    assert MeetsTarget(EncoderOf(b), 0);
  }

  /** `validate_block` refuses a linked block whose hash is not below it, whatever else it has. */
  lemma ValidateNeedsBelow(chain: seq<Block>, accts: Accounts, difficulty: u64, b: Block)
    requires ExpectedPrevious(chain, b.index).Some? && !Below(b.hash, difficulty % TWO32)
    ensures ValidateAnswer(chain, accts, difficulty, b) == Ok(false)
  {
    hide Below, BlockHash, InPlace, FeesDecompose, FeesMatch;
    if b.hash == BlockHash(b) {
      HashBelow(b, difficulty % TWO32);
    }
  }
}
