/** The validators once more, from the outside: what they accept, in bytes, numbers and each sender's list of nonces, and
    what they refuse (src/lib.rs:807-915, 1149-1259). */
module Reference {
  import opened Machine
  import opened Fee
  import opened Encoding
  import opened Crypto
  import opened Transaction
  import opened HashLayout
  import opened Order
  import opened Ledger
  import opened Settlement
  import opened Reservation
  import opened Runs
  import opened NonceHistory
  import opened Validation
  import opened Agreement
  import opened Layout
  import opened Target

  // ---- headers ----

  ghost predicate Zeros(s: seq<byte>, n: nat) {
    |s| == n && forall i | 0 <= i < n :: s[i] == '0' as int
  }

  /** Linked, at the expected difficulty, opened by a transaction from 34 zeros that pays what the header says, and
      carrying the hex digest of its own bytes, which is below the bound. */
  ghost predicate SealedHeader(b: Block, prev: Bytes, difficulty: nat, target: nat) {
    && b.previousHash == prev
    && b.difficulty == difficulty
    && |b.transactions| > 0
    && Zeros(b.transactions[0].payload.from_, 34)
    && b.transactions[0].payload.amountConsumer == b.coinbaseConsumer
    && b.transactions[0].payload.amountIndustrial == b.coinbaseIndustrial
    && b.hash == ToHex(Blake3(EncoderOf(b).Preimage()))
    && Below(b.hash, target)
  }

  lemma ZerosAre(s: seq<byte>)
    ensures Zeros(s, 34) <==> s == COINBASE
    ensures Zeros(s, 64) <==> s == ZERO_HASH
  {
    ConstantsAre();
  }

  lemma HeaderIff(b: Block, prev: Bytes, difficulty: u64, target: nat)
    ensures ValidHeader(b, prev, difficulty, target) <==> SealedHeader(b, prev, difficulty, target)
  {
    hide MeetsTarget, Below, Zeros, ToHex;
    assert BlockHash(b) == ToHex(Blake3(EncoderOf(b).Preimage()));
    if |b.transactions| > 0 {
      ZerosAre(b.transactions[0].payload.from_);
    }
    if b.hash == BlockHash(b) {
      HashBelow(b, target);
    }
  }

  /** The header carries the digest of the fee totals, consumer first, and its coinbases cover them. */
  ghost predicate Checksummed(b: Block, ct: nat, it: nat) {
    && ct <= b.coinbaseConsumer && it <= b.coinbaseIndustrial
    && b.feeChecksum == ToHex(Blake3(Le64(ct) + Le64(it)))
  }

  lemma ChecksummedIff(b: Block, ct: nat, it: nat)
    ensures FeesMatch(b, ct, it) <==> Checksummed(b, ct, it)
  {
    hide ToHex, Le64;
  }

  // ---- bodies ----

  /** Every fee is in range and goes to one of the three selectors. */
  ghost predicate FeesInRange(txs: seq<SignedTransaction>) {
    forall j | 0 <= j < |txs| :: txs[j].payload.feeSelector <= 2 && txs[j].payload.fee < 0x8000_0000_0000_0000
  }

  ghost predicate DistinctIdsIn(txs: seq<SignedTransaction>) {
    forall i, j | 0 <= i < j < |txs| :: TxId(txs[i]) != TxId(txs[j])
  }

  /** A sender's `k`-th transaction has its first one's nonce plus `k`, on a 64-bit counter. */
  ghost predicate CountsUp(xs: seq<u64>) {
    forall k | 0 <= k < |xs| :: xs[k] == (xs[0] + k) % TWO64
  }

  ghost predicate NoncesCountUp(txs: seq<SignedTransaction>) {
    forall a | a != COINBASE :: CountsUp(NoncesOf(txs, a))
  }

  ghost predicate SoundBody(txs: seq<SignedTransaction>) {
    FeesInRange(txs) && DistinctIdsIn(txs) && SignaturesOk(txs) && NoncesCountUp(txs)
  }

  lemma FeesInRangeIff(txs: seq<SignedTransaction>)
    ensures FeesDecompose(txs) <==> FeesInRange(txs)
  {
    forall j | 0 <= j < |txs|
      ensures Decompose(txs[j].payload.feeSelector, txs[j].payload.fee).Ok?
              <==> txs[j].payload.feeSelector <= 2 && txs[j].payload.fee < 0x8000_0000_0000_0000
    {
    }
  }

  lemma WrapSum(x: nat, y: nat)
    ensures (x % TWO64 + y) % TWO64 == (x + y) % TWO64
  {
  }

  lemma FollowedCountUp(txs: seq<SignedTransaction>, a: Bytes)
    requires forall i, j | 0 <= i < j < |txs| && txs[i].payload.from_ == txs[j].payload.from_ == a ::
               NonceFollows(txs, i, j)
    ensures CountsUp(NoncesOf(txs, a))
  {
    hide NoncesOf, ListCount;
    var xs := NoncesOf(txs, a);
    forall k | 0 <= k < |xs|
      ensures xs[k] == (xs[0] + k) % TWO64
    {
      var p := PositionOf(txs, a, 0);
      var q := PositionOf(txs, a, k);
      if k == 0 {
        WordIsItself(xs[0]);
      } else if q <= p {
        RankDifference(txs, q, p, a);
      } else {
        RankDifference(txs, p, q, a);
        assert NonceFollows(txs, p, q);
      }
    }
  }

  lemma CountedUpFollow(txs: seq<SignedTransaction>, i: nat, j: nat)
    requires i < j < |txs| && txs[i].payload.from_ == txs[j].payload.from_
    requires CountsUp(NoncesOf(txs, txs[j].payload.from_))
    ensures NonceFollows(txs, i, j)
  {
    hide NoncesOf, ListCount, CountsUp, NonceFollows;
    var a := txs[j].payload.from_;
    NoncesOfAt(txs, i);
    NoncesOfAt(txs, j);
    RankDifference(txs, i, j, a);
    CountedApart(NoncesOf(txs, a), ListCount(txs[..i], a), ListCount(txs[..j], a), txs, i, j);
  }

  lemma CountedApart(xs: seq<u64>, p: nat, q: nat, txs: seq<SignedTransaction>, i: nat, j: nat)
    requires CountsUp(xs) && p <= q < |xs| && i < j < |txs|
    requires xs[p] == txs[i].payload.nonce && xs[q] == txs[j].payload.nonce
    requires q == p + ListCount(txs[i..j], txs[j].payload.from_)
    ensures NonceFollows(txs, i, j)
  {
    hide ListCount;
    var x := xs[0];
    assert xs[p] == (x + p) % TWO64 && xs[q] == (x + q) % TWO64;
    WrapSum(x + p, q - p);
  }

  lemma BodyIff(txs: seq<SignedTransaction>)
    ensures (forall j | 0 <= j < |txs| :: TxValid(txs, j)) <==> SoundBody(txs)
  {
    hide NonceFollows, NoncesOf, CountsUp, TxId, VerifySignedTx, Decompose;
    FeesInRangeIff(txs);
    if forall j | 0 <= j < |txs| :: TxValid(txs, j) {
      ValidBodyParts(txs);
      forall i, j | 0 <= i < j < |txs|
        ensures TxId(txs[i]) != TxId(txs[j])
      {
        assert TxValid(txs, j);
      }
      forall a | a != COINBASE
        ensures CountsUp(NoncesOf(txs, a))
      {
        forall i, j | 0 <= i < j < |txs| && txs[i].payload.from_ == txs[j].payload.from_ == a
          ensures NonceFollows(txs, i, j)
        {
          assert TxValid(txs, j);
        }
        FollowedCountUp(txs, a);
      }
    }
    if SoundBody(txs) {
      SoundIsValid(txs);
    }
  }

  lemma SoundIsValid(txs: seq<SignedTransaction>)
    requires SoundBody(txs) && FeesDecompose(txs)
    ensures forall j | 0 <= j < |txs| :: TxValid(txs, j)
  {
    hide NonceFollows, NoncesOf, CountsUp, TxId, VerifySignedTx, Decompose;
    forall j | 0 <= j < |txs|
      ensures TxValid(txs, j)
    {
      forall i | 0 <= i < j && txs[i].payload.from_ == txs[j].payload.from_ != COINBASE
        ensures NonceFollows(txs, i, j)
      {
        CountedUpFollow(txs, i, j);
      }
    }
  }

  // ---- the chain validator ----

  ghost predicate SoundBlock(b: Block, prev: Bytes, difficulty: nat) {
    && SealedHeader(b, prev, difficulty, difficulty)
    && SoundBody(b.transactions[1..])
    && Checksummed(b, ListFee(b.transactions[1..], Consumer), ListFee(b.transactions[1..], Industrial))
  }

  lemma BlockIff(b: Block, prev: Bytes, difficulty: nat)
    ensures ValidBlock(b, prev, difficulty) <==> SoundBlock(b, prev, difficulty)
  {
    hide ValidHeader, SealedHeader, SoundBody, TxValid, FeesMatch, Checksummed;
    if SealedHeader(b, prev, difficulty, difficulty) {
      SealedParts(b, prev, difficulty);
    }
    if difficulty < TWO64 {
      HeaderIff(b, prev, difficulty, difficulty);
      if |b.transactions| > 0 {
        BodyIff(b.transactions[1..]);
        ChecksummedIff(b, ListFee(b.transactions[1..], Consumer), ListFee(b.transactions[1..], Industrial));
      }
    }
  }

  lemma SealedParts(b: Block, prev: Bytes, difficulty: nat)
    requires SealedHeader(b, prev, difficulty, difficulty)
    ensures difficulty < TWO64 && |b.transactions| > 0
  {
  }

  /** The chain validator accepts a chain if and only if each block is sound and carries its predecessor's hash, the
      first one 64 zeros. */
  lemma ChainIff(chain: seq<Block>, difficulty: nat)
    ensures ValidChain(chain, difficulty) <==>
            && (chain != [] ==> Zeros(chain[0].previousHash, 64))
            && (forall i | 0 < i < |chain| :: chain[i].previousHash == chain[i - 1].hash)
            && (forall i | 0 <= i < |chain| :: SoundBlock(chain[i], chain[i].previousHash, difficulty))
  {
    hide ValidBlock, SoundBlock, Zeros;
    forall i | 0 <= i < |chain|
      ensures ValidBlock(chain[i], PreviousHash(chain[..i]), difficulty)
              <==> chain[i].previousHash == PreviousHash(chain[..i]) && SoundBlock(chain[i], chain[i].previousHash, difficulty)
      ensures i > 0 ==> PreviousHash(chain[..i]) == chain[i - 1].hash
    {
      BlockIff(chain[i], PreviousHash(chain[..i]), difficulty);
      SoundLinks(chain[i], PreviousHash(chain[..i]), difficulty);
    }
    if chain != [] {
      ZerosAre(chain[0].previousHash);
      assert PreviousHash(chain[..0]) == ZERO_HASH;
    }
  }

  lemma SoundLinks(b: Block, prev: Bytes, difficulty: nat)
    ensures SoundBlock(b, prev, difficulty) <==> b.previousHash == prev && SoundBlock(b, b.previousHash, difficulty)
  {
  }

  // ---- tampering ----

  /** The parts of a header that the transactions fix. */
  ghost predicate SameCommitments(b: Block, c: Block) {
    && b.previousHash == c.previousHash && b.difficulty == c.difficulty
    && b.coinbaseConsumer == c.coinbaseConsumer && b.coinbaseIndustrial == c.coinbaseIndustrial
    && b.feeChecksum == c.feeChecksum
  }

  /** Of all blocks with the transactions of a valid one, exactly those are valid in its place that differ from it at
      most in index and nonce, carry the digest of their own bytes, and are below the bound. */
  lemma SameTransactionsValidIff(b: Block, c: Block, prev: Bytes, difficulty: nat)
    requires ValidBlock(b, prev, difficulty) && c.transactions == b.transactions
    ensures ValidBlock(c, prev, difficulty) <==>
            SameCommitments(b, c) && c.hash == ToHex(Blake3(EncoderOf(c).Preimage())) && Below(c.hash, difficulty)
  {
    hide SoundBody, Below, Zeros, ToHex;
    BlockIff(b, prev, difficulty);
    BlockIff(c, prev, difficulty);
  }

  /** In particular no other fee checksum passes, however the block is sealed again. */
  lemma OtherChecksumRefused(b: Block, prev: Bytes, difficulty: nat, checksum: Bytes, n: u64)
    requires ValidBlock(b, prev, difficulty)
    ensures var ct, it := ListFee(Body(b), Consumer), ListFee(Body(b), Industrial);
      ct < TWO64 && it < TWO64 && HexToBytes(b.feeChecksum) == Some(Blake3(Le64(ct) + Le64(it)))
    ensures var c := b.(feeChecksum := checksum, nonce := n);
      checksum != b.feeChecksum ==> !ValidBlock(c.(hash := BlockHash(c)), prev, difficulty)
  {
    ValidFees(b, prev, difficulty);
    hide ValidBlock, ToHex, HexToBytes, Blake3;
    var ct, it := ListFee(Body(b), Consumer), ListFee(Body(b), Industrial);
    ChecksumDecodes(ct, it);
    var c := b.(feeChecksum := checksum, nonce := n);
    SameTransactionsValidIff(b, c.(hash := BlockHash(c)), prev, difficulty);
  }

  lemma ValidFees(b: Block, prev: Bytes, difficulty: nat)
    requires ValidBlock(b, prev, difficulty)
    ensures var ct, it := ListFee(Body(b), Consumer), ListFee(Body(b), Industrial);
      ct < TWO64 && it < TWO64 && b.feeChecksum == FeeChecksum(ct, it)
  {
    hide BlockHash, MeetsTarget, TxValid, FeeChecksum;
  }

  /** A signature is the one thing nothing commits to: a valid block with other signatures on its transactions is valid
      if and only if they verify. */
  lemma ResignedValidIff(b: Block, c: Block, prev: Bytes, difficulty: nat)
    requires ValidBlock(b, prev, difficulty) && c == b.(transactions := c.transactions)
    requires |c.transactions| == |b.transactions|
    requires forall j | 0 <= j < |b.transactions| ::
               c.transactions[j] == b.transactions[j].(signature := c.transactions[j].signature)
    ensures ValidBlock(c, prev, difficulty) <==> SignaturesOk(c.transactions[1..])
  {
    hide Below, Zeros, ToHex, VerifySignedTx, Decompose, NoncesOf, FeeOf;
    BlockIff(b, prev, difficulty);
    BlockIff(c, prev, difficulty);
    forall j | 0 <= j < |b.transactions|
      ensures TxId(c.transactions[j]) == TxId(b.transactions[j])
    {
    }
    assert Ids(c.transactions) == Ids(b.transactions);
    assert EncoderOf(c) == EncoderOf(b);
    var xs, ys := b.transactions[1..], c.transactions[1..];
    forall j | 0 <= j < |xs|
      ensures ys[j].payload == xs[j].payload && TxId(ys[j]) == TxId(xs[j])
    {
      assert ys[j] == c.transactions[j + 1] && xs[j] == b.transactions[j + 1];
    }
    SamePayloads(xs, ys);
  }

  lemma {:induction false} SamePayloads(xs: seq<SignedTransaction>, ys: seq<SignedTransaction>)
    requires |xs| == |ys| && forall j | 0 <= j < |xs| :: xs[j].payload == ys[j].payload
    ensures ListFee(xs, Consumer) == ListFee(ys, Consumer) && ListFee(xs, Industrial) == ListFee(ys, Industrial)
    ensures forall a :: NoncesOf(xs, a) == NoncesOf(ys, a)
  {
    if xs != [] {
      SamePayloads(xs[1..], ys[1..]);
    }
  }

  // ---- validate_block ----

  /** Each sender's nonces run on from its account's nonce less their number, or from 0 if that is less. */
  ghost predicate NoncesInPlace(accts: Accounts, txs: seq<SignedTransaction>) {
    forall a | a != COINBASE :: RunsFrom(NoncesOf(txs, a), NonceAt(accts, a))
  }

  ghost predicate RunsFrom(xs: seq<u64>, n: u64) {
    forall k | 0 <= k < |xs| :: xs[k] as int == (if |xs| <= n then n - |xs| else 0) + k + 1
  }

  lemma NoncesInPlaceIff(accts: Accounts, txs: seq<SignedTransaction>)
    ensures (forall j | 0 <= j < |txs| :: NonceInPlace(accts, txs, j)) <==> NoncesInPlace(accts, txs)
  {
    hide NoncesOf, ListCount;
    forall j | 0 <= j < |txs|
      ensures NoncesInPlace(accts, txs) ==> NonceInPlace(accts, txs, j)
    {
      var a := txs[j].payload.from_;
      NoncesOfAt(txs, j);
      RankOfNext(txs, j);
      NoncesOfCount(txs, a, 0);
      if NoncesInPlace(accts, txs) && a != COINBASE {
        assert RunsFrom(NoncesOf(txs, a), NonceAt(accts, a));
      }
    }
    if forall j | 0 <= j < |txs| :: NonceInPlace(accts, txs, j) {
      forall a | a != COINBASE
        ensures RunsFrom(NoncesOf(txs, a), NonceAt(accts, a))
      {
        InPlaceRuns(accts, txs, a);
      }
    }
  }

  lemma InPlaceRuns(accts: Accounts, txs: seq<SignedTransaction>, a: Bytes)
    requires a != COINBASE && forall j | 0 <= j < |txs| :: NonceInPlace(accts, txs, j)
    ensures RunsFrom(NoncesOf(txs, a), NonceAt(accts, a))
  {
    hide NoncesOf, ListCount;
    NoncesOfCount(txs, a, 0);
    forall k | 0 <= k < |NoncesOf(txs, a)|
      ensures NoncesOf(txs, a)[k] as int == StartNonce(accts, txs, a) + k + 1
    {
      var p := PositionOf(txs, a, k);
      RankOfNext(txs, p);
      assert NonceInPlace(accts, txs, p);
    }
  }

  lemma InPlaceIff(accts: Accounts, txs: seq<SignedTransaction>)
    ensures InPlace(accts, txs) <==> NoncesInPlace(accts, txs) && DistinctIdsIn(txs)
  {
    hide NonceInPlace, NoncesInPlace, TxId;
    NoncesInPlaceIff(accts, txs);
    if InPlace(accts, txs) {
      forall i, j | 0 <= i < j < |txs|
        ensures TxId(txs[i]) != TxId(txs[j])
      {
        assert IdFresh(txs, j);
      }
    }
  }

  /** The hash a block at this index of the chain, or just past its tip, has to link to. */
  ghost predicate LinksInto(chain: seq<Block>, b: Block) {
    b.index <= |chain| && if b.index == 0 then Zeros(b.previousHash, 64) else b.previousHash == chain[b.index - 1].hash
  }

  /** Fit to be counted: linked and sealed, with fees in range, nonces in place and ids distinct. */
  ghost predicate Countable(chain: seq<Block>, accts: Accounts, difficulty: u64, b: Block) {
    && LinksInto(chain, b)
    && SealedHeader(b, b.previousHash, difficulty, difficulty % TWO32)
    && FeesInRange(b.transactions[1..])
    && NoncesInPlace(accts, b.transactions) && DistinctIdsIn(b.transactions)
  }

  /** Every answer of `validate_block`: no predecessor exactly past the tip; an overflow exactly for a countable block
      whose fees leave the word; and yes exactly for a countable block that commits to its fees and covers them. */
  lemma ValidateAnswers(chain: seq<Block>, accts: Accounts, difficulty: u64, b: Block)
    ensures var r := ValidateAnswer(chain, accts, difficulty, b);
      && (r == Err(MissingPreviousBlock) <==> b.index > |chain|)
      && (r == Err(FeeTotalOverflow) <==>
            && Countable(chain, accts, difficulty, b)
            && var body := b.transactions[1..]; ListFee(body, Consumer) >= TWO64 || ListFee(body, Industrial) >= TWO64)
      && (r == Ok(true) <==>
            && Countable(chain, accts, difficulty, b)
            && var body := b.transactions[1..]; Checksummed(b, ListFee(body, Consumer), ListFee(body, Industrial)))
  {
    hide ValidHeader, SealedHeader, FeesDecompose, FeesInRange, InPlace, NoncesInPlace, DistinctIdsIn, FeesMatch,
      Checksummed, Zeros, ListFee;
    if b.index <= |chain| {
      var prev := ExpectedPrevious(chain, b.index).value;
      LinkedHeader(chain, b, prev, difficulty, difficulty % TWO32);
      if ValidHeader(b, prev, difficulty, difficulty % TWO32) {
        HeaderOpens(b, prev, difficulty, difficulty % TWO32);
        var body := b.transactions[1..];
        FeesInRangeIff(body);
        InPlaceIff(accts, b.transactions);
        ChecksummedIff(b, ListFee(body, Consumer), ListFee(body, Industrial));
        if Checksummed(b, ListFee(body, Consumer), ListFee(body, Industrial)) {
          ChecksummedFits(b, ListFee(body, Consumer), ListFee(body, Industrial));
        }
      }
    }
  }

  lemma HeaderOpens(b: Block, prev: Bytes, difficulty: u64, target: nat)
    requires ValidHeader(b, prev, difficulty, target)
    ensures b.transactions != []
  {
  }

  lemma ChecksummedFits(b: Block, ct: nat, it: nat)
    requires Checksummed(b, ct, it)
    ensures ct < TWO64 && it < TWO64
  {
  }

  lemma LinkedHeader(chain: seq<Block>, b: Block, prev: Bytes, difficulty: u64, target: nat)
    requires ExpectedPrevious(chain, b.index) == Some(prev)
    ensures ValidHeader(b, prev, difficulty, target)
            <==> LinksInto(chain, b) && SealedHeader(b, b.previousHash, difficulty, target)
  {
    HeaderIff(b, prev, difficulty, target);
    ZerosAre(b.previousHash);
    hide Below, Zeros, ToHex, ValidHeader;
  }

  // ---- over runs ----

  lemma SameLinkSameAnswer(chain: seq<Block>, chain': seq<Block>, accts: Accounts, difficulty: u64, b: Block)
    requires ExpectedPrevious(chain, b.index) == ExpectedPrevious(chain', b.index)
    ensures ValidateAnswer(chain, accts, difficulty, b) == ValidateAnswer(chain', accts, difficulty, b)
  {
  }

  /** A block that extends the tip is checked before it is appended: at the end of any run the newest block, against the
      chain before it and the accounts after it, gets the answer that its mempool had no gap. */
  lemma TipBlockValidates(d: u64, es: seq<Event>)
    requires es != [] && Uninterrupted(d, es) && Appends(Run(FreshState(d), Init(es)), Last(es))
    requires NoIdCollisions(Run(FreshState(d), es).chain)
    ensures var s, s' := Run(FreshState(d), Init(es)), Run(FreshState(d), es);
      && s'.chain != [] && Last(s'.chain).index == |s.chain| && Last(s'.chain).previousHash == PreviousHash(s.chain)
      && ValidateAnswer(s.chain, s'.accounts, d, Last(s'.chain)) == Ok(GapFree(s.mempool))
  {
    var s, s' := Run(FreshState(d), Init(es)), Run(FreshState(d), es);
    LastBlockValidates(d, es);
    RunReserves(d, Init(es));
    AppendStep(s, Last(es));
    TipIndex(s, Last(es).miner, Last(s'.chain), s');
    StepLengths(s, Last(es));
    hide Inv, Appends, Step, SearchEnds, NoncesWithin, GapFree, ValidateAnswer, Extends, PushedBlock, NoIdCollisions;
    SameLinkSameAnswer(s.chain, s'.chain, s'.accounts, d, Last(s'.chain));
  }

  lemma TipIndex(s: State, miner: Bytes, b: Block, s': State)
    requires Extends(s, miner, b, s') && |s.chain| < TWO64
    ensures b.index == |s.chain| && b.previousHash == PreviousHash(s.chain)
    ensures ExpectedPrevious(s.chain, b.index) == ExpectedPrevious(s'.chain, b.index)
  {
    hide BlockHash, LeastNonce, SortedPool, Settle;
  }
}
