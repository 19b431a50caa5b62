/** The validators accept what the miner produces. */
module Agreement {
  import opened Machine
  import opened Fee
  import opened Crypto
  import opened Transaction
  import opened HashLayout
  import opened Order
  import opened Ledger
  import opened Settlement
  import opened Reservation
  import opened Runs
  import opened NonceHistory
  import opened Validation

  ghost function IdPreimages(txs: seq<SignedTransaction>): set<seq<byte>> {
    set i | 0 <= i < |txs| :: IdPreimage(txs[i])
  }

  /** No two different transactions of one block share an id. */
  ghost predicate NoIdCollisions(chain: seq<Block>) {
    forall i | 0 <= i < |chain| :: CollisionFree(IdPreimages(chain[i].transactions))
  }

  // ---- ids ----

  lemma DistinctIds(txs: seq<SignedTransaction>, i: nat, j: nat)
    requires i < |txs| && j < |txs| && CollisionFree(IdPreimages(txs))
    requires txs[i].payload != txs[j].payload || txs[i].publicKey != txs[j].publicKey
    ensures TxId(txs[i]) != TxId(txs[j])
  {
    IdPreimageInjective(txs[i], txs[j]);
    assert IdPreimage(txs[i]) in IdPreimages(txs) && IdPreimage(txs[j]) in IdPreimages(txs);
  }

  lemma PooledTx(pool: Pool, i: nat)
    requires Keyed(pool) && i < |SortedPool(pool)|
    ensures var tx := SortedPool(pool)[i]; KeyOf(tx) in pool && pool[KeyOf(tx)] == tx
  {
    SortedPoolLists(pool);
    assert SortedPool(pool)[i] in SortedPool(pool);
  }

  lemma AdmittedTx(s: State, i: nat)
    requires Sequenced(s) && i < |SortedPool(s.mempool)|
    ensures Admitted(SortedPool(s.mempool)[i])
  {
    PooledTx(s.mempool, i);
  }

  lemma PooledKeysDiffer(pool: Pool, i: nat, j: nat)
    requires Keyed(pool) && i < j < |SortedPool(pool)|
    ensures KeyOf(SortedPool(pool)[i]) != KeyOf(SortedPool(pool)[j])
  {
    SortedPoolSorted(pool);
    KeyLessTotal(KeyOf(SortedPool(pool)[i]), KeyOf(SortedPool(pool)[j]));
    KeyLessTotal(KeyOf(SortedPool(pool)[j]), KeyOf(SortedPool(pool)[j]));
  }

  // ---- gaps ----

  /** Between any two pending nonces of the sender, every nonce is pending. */
  ghost predicate GapFreeFor(pool: Pool, a: Bytes) {
    forall m: u64, x: u64, n: u64 | Key(a, m) in pool && Key(a, n) in pool && m < x < n :: Key(a, x) in pool
  }

  /** No sender but the coinbase address has a gap among its pending nonces. */
  ghost predicate GapFree(pool: Pool) {
    forall a | a != COINBASE :: GapFreeFor(pool, a)
  }

  /** One by one. */
  ghost predicate Steps(xs: seq<u64>) {
    forall i | 0 <= i < |xs| - 1 :: xs[i + 1] == xs[i] as int + 1
  }

  lemma {:induction false} StepsReach(xs: seq<u64>, i: nat, j: nat)
    requires Steps(xs) && i <= j < |xs|
    ensures xs[j] == xs[i] as int + (j - i)
    decreases j
  {
    if i < j {
      StepsReach(xs, i, j - 1);
      assert xs[(j - 1) + 1] == xs[j - 1] as int + 1;
    }
  }

  /** Having no gap is listing the nonces one by one. */
  lemma GapFreeIsSteps(pool: Pool, a: Bytes)
    requires Keyed(pool)
    ensures GapFreeFor(pool, a) <==> Steps(NoncesOf(SortedPool(pool), a))
  {
    hide SortedPool, NoncesOf;
    var xs := NoncesOf(SortedPool(pool), a);
    SortedPoolSorted(pool);
    SortedNoncesIncrease(SortedPool(pool), a);
    if GapFreeFor(pool, a) {
      forall i | 0 <= i < |xs| - 1
        ensures xs[i + 1] == xs[i] as int + 1
      {
        PooledNonces(pool, a, xs[i]);
        PooledNonces(pool, a, xs[i + 1]);
        if xs[i] as int + 1 < xs[i + 1] {
          PooledNonces(pool, a, xs[i] + 1);
          NothingBetween(xs, i);
        }
      }
    }
    if Steps(xs) {
      forall m: u64, x: u64, n: u64 | Key(a, m) in pool && Key(a, n) in pool && m < x < n
        ensures Key(a, x) in pool
      {
        PooledNonces(pool, a, m);
        PooledNonces(pool, a, n);
        PooledNonces(pool, a, x);
        StepsCover(xs, m, x, n);
      }
    }
  }

  lemma NothingBetween(xs: seq<u64>, i: nat)
    requires Increasing(xs) && i + 1 < |xs| && xs[i] as int + 1 < xs[i + 1]
    ensures xs[i] as int + 1 !in xs
  {
  }

  lemma StepsCover(xs: seq<u64>, m: u64, x: u64, n: u64)
    requires Steps(xs) && Increasing(xs) && m in xs && n in xs && m < x < n
    ensures x in xs
  {
    var i :| 0 <= i < |xs| && xs[i] == m;
    var j :| 0 <= j < |xs| && xs[j] == n;
    assert i < j;
    StepsReach(xs, i, j);
    StepsReach(xs, i, i + (x - m));
  }

  lemma RemoveKeepsGapFreeIff(pool: Pool, a: Bytes, n: u64)
    requires GapFreeFor(pool, a) && Key(a, n) in pool
    ensures GapFreeFor(pool - {Key(a, n)}, a)
            <==> || (forall k | k in pool && k.sender == a :: k.nonce <= n)
                 || (forall k | k in pool && k.sender == a :: n <= k.nonce)
  {
  }

  /** A drop leaves no gap exactly when it takes the sender's lowest or highest pending nonce. */
  lemma DropKeepsGapFreeIff(s: State, a: Bytes, n: u64)
    requires GapFree(s.mempool) && Key(a, n) in s.mempool && a != COINBASE
    ensures GapFree(Drop(s, a, n).value.mempool)
            <==> || (forall k | k in s.mempool && k.sender == a :: k.nonce <= n)
                 || (forall k | k in s.mempool && k.sender == a :: n <= k.nonce)
  {
    var after := Drop(s, a, n).value.mempool;
    assert after == s.mempool - {Key(a, n)};
    RemoveKeepsGapFreeIff(s.mempool, a, n);
    forall b | b != COINBASE && b != a
      ensures GapFreeFor(after, b)
    {
      assert GapFreeFor(s.mempool, b);
    }
    hide GapFreeFor;
  }

  // ---- nonces by position ----

  lemma {:induction false} NoncesOfAt(txs: seq<SignedTransaction>, j: nat)
    requires j < |txs|
    ensures var a := txs[j].payload.from_;
      ListCount(txs[..j], a) < |NoncesOf(txs, a)| && NoncesOf(txs, a)[ListCount(txs[..j], a)] == txs[j].payload.nonce
  {
    if j > 0 {
      NoncesOfAt(txs[1..], j - 1);
      assert txs[1..][..j - 1] == txs[..j][1..];
    }
  }

  /** Where a sender's `i`-th transaction stands in the list. */
  lemma {:induction false} PositionOf(txs: seq<SignedTransaction>, a: Bytes, i: nat) returns (p: nat)
    requires i < |NoncesOf(txs, a)|
    ensures p < |txs| && txs[p].payload.from_ == a && ListCount(txs[..p], a) == i
    ensures txs[p].payload.nonce == NoncesOf(txs, a)[i]
  {
    if txs[0].payload.from_ == a && i == 0 {
      p := 0;
    } else {
      var first := if txs[0].payload.from_ == a then 1 else 0;
      var q := PositionOf(txs[1..], a, i - first);
      p := q + 1;
      assert txs[..p][1..] == txs[1..][..q];
    }
  }

  /** Ranks along the list differ by the sender's count in between. */
  lemma RankDifference(txs: seq<SignedTransaction>, p: nat, q: nat, a: Bytes)
    requires p <= q <= |txs|
    ensures ListCount(txs[..q], a) == ListCount(txs[..p], a) + ListCount(txs[p..q], a)
  {
    CountAppend(txs[..p], txs[p..q], a);
    assert txs[..p] + txs[p..q] == txs[..q];
  }

  lemma RankOfNext(txs: seq<SignedTransaction>, j: nat)
    requires j < |txs|
    ensures var a := txs[j].payload.from_; ListCount(txs[..j + 1], a) == ListCount(txs[..j], a) + 1
  {
    CountSnoc(txs, 0, j, txs[j].payload.from_);
    assert txs[0..j] == txs[..j] && txs[0..j + 1] == txs[..j + 1];
  }

  lemma FollowsBySum(txs: seq<SignedTransaction>, i: nat, j: nat)
    requires i < j < |txs|
    requires txs[i].payload.nonce + ListCount(txs[i..j], txs[j].payload.from_) == txs[j].payload.nonce
    ensures NonceFollows(txs, i, j)
  {
  }

  lemma StepsFollow(txs: seq<SignedTransaction>, i: nat, j: nat)
    requires i < j < |txs| && txs[i].payload.from_ == txs[j].payload.from_
    requires Steps(NoncesOf(txs, txs[j].payload.from_))
    ensures NonceFollows(txs, i, j)
  {
    hide ListCount, NoncesOf, Steps;
    var a := txs[j].payload.from_;
    NoncesOfAt(txs, i);
    NoncesOfAt(txs, j);
    RankDifference(txs, i, j, a);
    StepsReach(NoncesOf(txs, a), ListCount(txs[..i], a), ListCount(txs[..j], a));
    FollowsBySum(txs, i, j);
  }

  /** Conversely, nonces that follow each other by position go one by one. */
  lemma FollowSteps(txs: seq<SignedTransaction>, a: Bytes)
    requires Increasing(NoncesOf(txs, a))
    requires forall i, j | 0 <= i < j < |txs| && txs[i].payload.from_ == txs[j].payload.from_ == a :: NonceFollows(txs, i, j)
    ensures Steps(NoncesOf(txs, a))
  {
    hide ListCount, NoncesOf;
    var xs := NoncesOf(txs, a);
    forall i | 0 <= i < |xs| - 1
      ensures xs[i + 1] == xs[i] as int + 1
    {
      var p, q := NeighbourPositions(txs, a, i);
      assert NonceFollows(txs, p, q);
    }
  }

  lemma NeighbourPositions(txs: seq<SignedTransaction>, a: Bytes, i: nat) returns (p: nat, q: nat)
    requires i + 1 < |NoncesOf(txs, a)|
    ensures p < q < |txs| && txs[p].payload.from_ == txs[q].payload.from_ == a && ListCount(txs[p..q], a) == 1
    ensures txs[p].payload.nonce == NoncesOf(txs, a)[i] && txs[q].payload.nonce == NoncesOf(txs, a)[i + 1]
    ensures ListCount(txs[..p + 1], a) + 1 == ListCount(txs[..q + 1], a)
  {
    hide ListCount, NoncesOf;
    p := PositionOf(txs, a, i);
    q := PositionOf(txs, a, i + 1);
    if q <= p {
      RankDifference(txs, q, p, a);
    } else {
      RankDifference(txs, p, q, a);
    }
    RankOfNext(txs, p);
    RankOfNext(txs, q);
  }

  // ---- the mined block ----

  lemma MinedTxValid(s: State, txs: seq<SignedTransaction>, j: nat)
    requires Sequenced(s) && GapFree(s.mempool) && txs == SortedPool(s.mempool) && j < |txs|
    requires CollisionFree(IdPreimages(txs))
    ensures TxValid(txs, j)
  {
    hide Sequenced, GapFreeFor, SortedPool, CollisionFree, VerifySignedTx, ListCount, NonceFollows, TxId, IdPreimages,
      Steps;
    AdmittedTx(s, j);
    KeyedPool(s);
    PooledIdFresh(s, txs, j);
    var a := txs[j].payload.from_;
    if a != COINBASE {
      assert GapFreeFor(s.mempool, a);
      GapFreeIsSteps(s.mempool, a);
      forall i | 0 <= i < j && txs[i].payload.from_ == a
        ensures NonceFollows(txs, i, j)
      {
        StepsFollow(txs, i, j);
      }
    }
  }

  lemma PooledIdFresh(s: State, txs: seq<SignedTransaction>, j: nat)
    requires Sequenced(s) && txs == SortedPool(s.mempool) && j < |txs| && CollisionFree(IdPreimages(txs))
    ensures IdFresh(txs, j)
  {
    hide Sequenced, SortedPool, CollisionFree, TxId, IdPreimages;
    KeyedPool(s);
    forall i | 0 <= i < j
      ensures TxId(txs[i]) != TxId(txs[j])
    {
      PooledKeysDiffer(s.mempool, i, j);
      DistinctIds(txs, i, j);
    }
  }

  /** A block whose transactions are all valid was mined from a mempool without gaps. */
  lemma ValidTxsAreGapFree(s: State, txs: seq<SignedTransaction>)
    requires Sequenced(s) && txs == SortedPool(s.mempool)
    requires forall j | 0 <= j < |txs| :: TxValid(txs, j)
    ensures GapFree(s.mempool)
  {
    hide Sequenced, SortedPool, NonceFollows, NoncesOf, GapFreeFor, VerifySignedTx;
    KeyedPool(s);
    SortedPoolSorted(s.mempool);
    forall a | a != COINBASE
      ensures GapFreeFor(s.mempool, a)
    {
      SortedNoncesIncrease(txs, a);
      forall i, j | 0 <= i < j < |txs| && txs[i].payload.from_ == txs[j].payload.from_ == a
        ensures NonceFollows(txs, i, j)
      {
        assert TxValid(txs, j);
      }
      FollowSteps(txs, a);
      GapFreeIsSteps(s.mempool, a);
    }
  }

  lemma BodyPreimages(b: Block)
    requires b.transactions != [] && CollisionFree(IdPreimages(b.transactions))
    ensures CollisionFree(IdPreimages(b.transactions[1..]))
  {
  }

  lemma MinedHeader(s: State, miner: Bytes, b: Block, s': State)
    requires Extends(s, miner, b, s')
    ensures ValidHeader(b, PreviousHash(s.chain), s.difficulty, s.difficulty % TWO32)
    ensures b.transactions[1..] == SortedPool(s.mempool)
    ensures FeesMatch(b, ListFee(b.transactions[1..], Consumer), ListFee(b.transactions[1..], Industrial))
  {
  }

  /** The chain validator accepts the block just mined if and only if the mempool it was mined from had no gap. */
  lemma MinedBlockValidIff(s: State, miner: Bytes, b: Block, s': State)
    requires Sequenced(s) && s.difficulty < TWO32
    requires Extends(s, miner, b, s') && CollisionFree(IdPreimages(b.transactions))
    ensures ValidBlock(b, PreviousHash(s.chain), s.difficulty) <==> GapFree(s.mempool)
  {
    hide Sequenced, GapFree, Extends, SortedPool, CollisionFree, TxValid, IdPreimages, FeesMatch;
    MinedHeader(s, miner, b, s');
    BodyPreimages(b);
    var txs := b.transactions[1..];
    if GapFree(s.mempool) {
      forall j | 0 <= j < |txs|
        ensures TxValid(txs, j)
      {
        MinedTxValid(s, txs, j);
      }
    }
    if forall j | 0 <= j < |txs| :: TxValid(txs, j) {
      ValidTxsAreGapFree(s, txs);
    }
  }

  // ---- validate_block on it ----

  lemma ConsCount(tx: SignedTransaction, txs: seq<SignedTransaction>, j: nat, a: Bytes)
    requires j <= |txs| && tx.payload.from_ != a
    ensures ListCount(([tx] + txs)[..j + 1], a) == ListCount(txs[..j], a)
  {
    assert ([tx] + txs)[..j + 1][1..] == txs[..j];
  }

  lemma ConsTotal(tx: SignedTransaction, txs: seq<SignedTransaction>, a: Bytes)
    requires tx.payload.from_ != a
    ensures ListCount([tx] + txs, a) == ListCount(txs, a)
  {
  }

  lemma MinedTransactions(s: State, miner: Bytes, b: Block, s': State)
    requires Extends(s, miner, b, s')
    ensures b.transactions != [] && b.transactions[0].payload.from_ == COINBASE
    ensures b.transactions == [b.transactions[0]] + SortedPool(s.mempool)
  {
  }

  lemma StepsInPlace(s: State, miner: Bytes, b: Block, s': State, j: nat)
    requires Sequenced(s) && GapFree(s.mempool) && Extends(s, miner, b, s') && j < |b.transactions|
    ensures NonceInPlace(s'.accounts, b.transactions, j)
  {
    hide Sequenced, SortedPool, ListCount, NonceAt, NoncesOf, GapFreeFor, Steps, Extends;
    var txs := SortedPool(s.mempool);
    MinedTransactions(s, miner, b, s');
    var a := b.transactions[j].payload.from_;
    if a != COINBASE {
      var xs := NoncesOf(txs, a);
      assert b.transactions[j] == txs[j - 1];
      KeyedPool(s);
      assert GapFreeFor(s.mempool, a);
      GapFreeIsSteps(s.mempool, a);
      NoncesOfAt(txs, j - 1);
      RankOfNext(txs, j - 1);
      NoncesOfCount(txs, a, 0);
      MineRaisesNonce(s, miner, b, s', a);
      StepsReach(xs, 0, |xs| - 1);
      StepsReach(xs, 0, ListCount(txs[..j - 1], a));
      ConsCount(b.transactions[0], txs, j, a);
      ConsTotal(b.transactions[0], txs, a);
    }
  }

  lemma InPlaceSteps(s: State, miner: Bytes, b: Block, s': State)
    requires Sequenced(s) && Extends(s, miner, b, s')
    requires forall j | 0 <= j < |b.transactions| :: NonceInPlace(s'.accounts, b.transactions, j)
    ensures GapFree(s.mempool)
  {
    hide Sequenced, SortedPool, ListCount, NonceAt, NoncesOf, GapFreeFor, Extends, StartNonce;
    var txs := SortedPool(s.mempool);
    MinedTransactions(s, miner, b, s');
    KeyedPool(s);
    SortedPoolSorted(s.mempool);
    forall a | a != COINBASE
      ensures GapFreeFor(s.mempool, a)
    {
      var xs := NoncesOf(txs, a);
      forall i | 0 <= i < |xs| - 1
        ensures xs[i + 1] == xs[i] as int + 1
      {
        var p, q := NeighbourPositions(txs, a, i);
        assert NonceInPlace(s'.accounts, b.transactions, p + 1) && NonceInPlace(s'.accounts, b.transactions, q + 1);
        assert b.transactions[p + 1] == txs[p] && b.transactions[q + 1] == txs[q];
        ConsCount(b.transactions[0], txs, p + 1, a);
        ConsCount(b.transactions[0], txs, q + 1, a);
      }
      GapFreeIsSteps(s.mempool, a);
    }
  }

  lemma MinedIdFresh(s: State, miner: Bytes, b: Block, s': State, j: nat)
    requires Sequenced(s) && Extends(s, miner, b, s') && j < |b.transactions|
    requires CollisionFree(IdPreimages(b.transactions))
    ensures IdFresh(b.transactions, j)
  {
    hide SortedPool, CollisionFree, TxId, IdPreimages, Inv, BlockHash, LeastNonce;
    var txs := SortedPool(s.mempool);
    forall i | 0 <= i < j
      ensures TxId(b.transactions[i]) != TxId(b.transactions[j])
    {
      assert b.transactions[j] == txs[j - 1];
      KeyedPool(s);
      AdmittedTx(s, j - 1);
      if i > 0 {
        assert b.transactions[i] == txs[i - 1];
        PooledKeysDiffer(s.mempool, i - 1, j - 1);
      }
      DistinctIds(b.transactions, i, j);
    }
  }

  /** `validate_block` answers for the block just mined, against the accounts it left, exactly whether the mempool had
      no gap: it recovers each starting nonce as the account's nonce less the sender's count. */
  lemma MinedBlockValidates(s: State, miner: Bytes, b: Block, s': State)
    requires Sequenced(s) && |s.chain| < TWO64
    requires Extends(s, miner, b, s') && CollisionFree(IdPreimages(b.transactions))
    ensures ValidateAnswer(s'.chain, s'.accounts, s'.difficulty, b) == Ok(GapFree(s.mempool))
  {
    hide Sequenced, GapFree, SortedPool, BlockHash, MeetsTarget, FeeChecksum, CollisionFree, IdPreimages, Extends;
    MinedHeader(s, miner, b, s');
    MinedLinks(s, miner, b, s');
    MinedFeesDecompose(s, b);
    assert InPlace(s'.accounts, b.transactions) <==> GapFree(s.mempool) by {
      hide NonceInPlace, IdFresh;
      forall j | 0 <= j < |b.transactions|
        ensures IdFresh(b.transactions, j)
        ensures GapFree(s.mempool) ==> NonceInPlace(s'.accounts, b.transactions, j)
      {
        MinedIdFresh(s, miner, b, s', j);
        if GapFree(s.mempool) {
          StepsInPlace(s, miner, b, s', j);
        }
      }
      if forall j | 0 <= j < |b.transactions| :: NonceInPlace(s'.accounts, b.transactions, j) {
        InPlaceSteps(s, miner, b, s');
      }
    }
  }

  lemma MinedFeesDecompose(s: State, b: Block)
    requires Sequenced(s) && b.transactions != [] && b.transactions[1..] == SortedPool(s.mempool)
    ensures FeesDecompose(b.transactions[1..])
  {
    hide Sequenced, SortedPool, VerifySignedTx;
    forall j | 0 <= j < |b.transactions[1..]|
      ensures Decompose(b.transactions[1..][j].payload.feeSelector, b.transactions[1..][j].payload.fee).Ok?
    {
      AdmittedTx(s, j);
    }
  }

  lemma MinedLinks(s: State, miner: Bytes, b: Block, s': State)
    requires Extends(s, miner, b, s') && |s.chain| < TWO64
    ensures ExpectedPrevious(s'.chain, b.index) == Some(PreviousHash(s.chain))
    ensures s'.difficulty == s.difficulty
  {
  }

  // ---- the two validators compared ----

  ghost predicate SignaturesOk(txs: seq<SignedTransaction>) {
    forall j | 0 <= j < |txs| && txs[j].payload.from_ != COINBASE :: VerifySignedTx(txs[j])
  }

  lemma InPlaceFollows(accts: Accounts, txs: seq<SignedTransaction>, i: nat, j: nat)
    requires i < j < |txs| && txs[i].payload.from_ == txs[j].payload.from_ != COINBASE
    requires NonceInPlace(accts, txs, i) && NonceInPlace(accts, txs, j)
    ensures NonceFollows(txs, i, j)
  {
    hide ListCount, StartNonce;
    RankOfNext(txs, i);
    RankOfNext(txs, j);
    RankDifference(txs, i, j, txs[j].payload.from_);
    FollowsBySum(txs, i, j);
  }

  lemma TailFollows(txs: seq<SignedTransaction>, i: nat, j: nat)
    requires i < j && j + 1 < |txs|
    ensures NonceFollows(txs[1..], i, j) <==> NonceFollows(txs, i + 1, j + 1)
  {
    assert txs[1..][i..j] == txs[i + 1..j + 1];
  }

  /** A transaction in place in the whole block is valid in its body, once its fee decomposes and it is signed. */
  lemma InPlaceIsValid(accts: Accounts, txs: seq<SignedTransaction>, j: nat)
    requires j + 1 < |txs| && InPlace(accts, txs)
    requires Decompose(txs[j + 1].payload.feeSelector, txs[j + 1].payload.fee).Ok?
    requires txs[j + 1].payload.from_ != COINBASE ==> VerifySignedTx(txs[j + 1])
    ensures TxValid(txs[1..], j)
  {
    hide NonceInPlace, NonceFollows, TxId, VerifySignedTx;
    var body := txs[1..];
    assert IdFresh(txs, j + 1) && NonceInPlace(accts, txs, j + 1);
    forall i | 0 <= i < j
      ensures TxId(body[i]) != TxId(body[j])
    {
      assert body[i] == txs[i + 1];
    }
    forall i | 0 <= i < j && body[i].payload.from_ == body[j].payload.from_ != COINBASE
      ensures NonceFollows(body, i, j)
    {
      assert NonceInPlace(accts, txs, i + 1);
      InPlaceFollows(accts, txs, i + 1, j + 1);
      TailFollows(txs, i, j);
    }
  }

  /** At a 32-bit difficulty, `validate_block` together with the signatures it does not check is chain validity
      together with the one thing that does not look at: that nonces start where the node's accounts say. */
  lemma ValidateIffValid(chain: seq<Block>, accts: Accounts, difficulty: u64, b: Block)
    requires difficulty < TWO32 && ExpectedPrevious(chain, b.index).Some?
    ensures var prev := ExpectedPrevious(chain, b.index).value;
      ValidateAnswer(chain, accts, difficulty, b) == Ok(true) && SignaturesOk(Body(b))
      <==> ValidBlock(b, prev, difficulty) && InPlace(accts, b.transactions)
  {
    hide IdFresh, NonceInPlace, NonceFollows, VerifySignedTx, MeetsTarget, BlockHash, FeeChecksum, ListFee, TxValid;
    var prev := ExpectedPrevious(chain, b.index).value;
    if ValidHeader(b, prev, difficulty, difficulty) {
      var body := b.transactions[1..];
      if FeesDecompose(body) && InPlace(accts, b.transactions) && SignaturesOk(body) {
        forall j | 0 <= j < |body|
          ensures TxValid(body, j)
        {
          InPlaceIsValid(accts, b.transactions, j);
        }
      }
      if forall j | 0 <= j < |body| :: TxValid(body, j) {
        ValidBodyParts(body);
      }
    }
  }

  lemma ValidBodyParts(txs: seq<SignedTransaction>)
    requires forall j | 0 <= j < |txs| :: TxValid(txs, j)
    ensures FeesDecompose(txs) && SignaturesOk(txs)
  {
    hide IdFresh, NonceFollows, VerifySignedTx;
    forall j | 0 <= j < |txs|
      ensures Decompose(txs[j].payload.feeSelector, txs[j].payload.fee).Ok?
      ensures txs[j].payload.from_ != COINBASE ==> VerifySignedTx(txs[j])
    {
      assert TxValid(txs, j);
    }
  }

  /** Neither is a block's index checked against its place: a valid block sealed again under any other index is as
      valid, if its new hash meets the target. */
  lemma IndexIsUnchecked(b: Block, prev: Bytes, difficulty: nat, i: u64)
    requires ValidBlock(b, prev, difficulty)
    ensures var b' := b.(index := i, hash := BlockHash(b.(index := i)));
      ValidBlock(b', prev, difficulty) <==> MeetsTarget(EncoderOf(b'), difficulty)
  {
    hide MeetsTarget, TxValid, BlockEncoder.HashHex;
    var b' := b.(index := i, hash := BlockHash(b.(index := i)));
    assert EncoderOf(b') == EncoderOf(b.(index := i));
    assert b'.transactions[1..] == b.transactions[1..];
  }

  // ---- over whole runs ----

  /** Every block of the run is mined from a mempool without gaps. */
  ghost predicate GapFreeMines(s: State, es: seq<Event>) {
    es == [] || (GapFreeMines(s, Init(es)) && (Appends(Run(s, Init(es)), Last(es)) ==> GapFree(Run(s, Init(es)).mempool)))
  }

  /** Dropping only a sender's highest pending nonce never leaves a gap. */
  lemma NoGapsIsGapFree(s: State)
    requires Sequenced(s) && NoGaps(s)
    ensures GapFree(s.mempool)
  {
    hide Sequenced, NoGaps, GapFreeFor, SortedPool, NoncesOf;
    KeyedPool(s);
    forall a | a != COINBASE
      ensures GapFreeFor(s.mempool, a)
    {
      PendingNoncesInOrder(s, a);
      GapFreeIsSteps(s.mempool, a);
    }
  }

  lemma {:induction false} TailDropsMineGapFree(d: u64, es: seq<Event>)
    requires Uninterrupted(d, es) && TailDrops(FreshState(d), es)
    ensures GapFreeMines(FreshState(d), es)
  {
    hide Inv, NoGaps, GapFree, TailDrop, SearchEnds, NoncesWithin, Appends;
    if es != [] {
      RunReserves(d, Init(es));
      InvSequences(Run(FreshState(d), Init(es)));
      TailDropsMineGapFree(d, Init(es));
      TailDropsLeaveNoGaps(d, Init(es));
      NoGapsIsGapFree(Run(FreshState(d), Init(es)));
    }
  }

  lemma ExtendValidChain(chain: seq<Block>, b: Block, difficulty: nat)
    ensures ValidChain(chain + [b], difficulty)
            <==> ValidChain(chain, difficulty) && ValidBlock(b, PreviousHash(chain), difficulty)
  {
    hide ValidBlock;
    var longer := chain + [b];
    forall i | 0 <= i < |chain|
      ensures longer[i] == chain[i] && longer[..i] == chain[..i]
    {
    }
    assert longer[|chain|] == b && longer[..|chain|] == chain;
    if ValidChain(longer, difficulty) {
      forall i | 0 <= i < |chain|
        ensures ValidBlock(chain[i], PreviousHash(chain[..i]), difficulty)
      {
        assert ValidBlock(longer[i], PreviousHash(longer[..i]), difficulty);
      }
      assert ValidBlock(longer[|chain|], PreviousHash(longer[..|chain|]), difficulty);
    }
  }

  lemma CollisionsInit(chain: seq<Block>, b: Block)
    requires NoIdCollisions(chain + [b])
    ensures NoIdCollisions(chain) && CollisionFree(IdPreimages(b.transactions))
  {
    hide CollisionFree, IdPreimages;
    assert (chain + [b])[|chain|] == b;
    assert forall i | 0 <= i < |chain| :: (chain + [b])[i] == chain[i];
  }

  lemma EmptyChainIsValid(d: nat)
    ensures ValidChain([], d)
  {
  }

  lemma ExtendsChain(s: State, miner: Bytes, b: Block, s': State)
    requires Extends(s, miner, b, s')
    ensures s'.chain == s.chain + [b] && s'.difficulty == s.difficulty
  {
  }

  /** In every run at a 32-bit difficulty, drops in any order, the chain validator accepts the chain the miner built
      if and only if every block was mined from a mempool without gaps. */
  lemma {:induction false} MinedChainValidIff(d: u64, es: seq<Event>)
    requires Uninterrupted(d, es) && d < TWO32
    requires NoIdCollisions(Run(FreshState(d), es).chain)
    ensures ValidChain(Run(FreshState(d), es).chain, d) <==> GapFreeMines(FreshState(d), es)
  {
    hide Inv, GapFree, ValidBlock, ValidChain, NoIdCollisions, NoncesWithin, SearchEnds, Appends, Step;
    if es == [] {
      EmptyChainIsValid(d);
    } else {
      var s := Run(FreshState(d), Init(es));
      if Appends(s, Last(es)) {
        NextBlockValidIff(d, es);
        MinedChainValidIff(d, Init(es));
      } else {
        QuietStep(s, Last(es));
        MinedChainValidIff(d, Init(es));
      }
    }
  }

  lemma NextBlockValidIff(d: u64, es: seq<Event>)
    requires es != [] && Uninterrupted(d, es) && d < TWO32 && Appends(Run(FreshState(d), Init(es)), Last(es))
    requires NoIdCollisions(Run(FreshState(d), es).chain)
    ensures var s := Run(FreshState(d), Init(es));
      && NoIdCollisions(s.chain)
      && (ValidChain(Run(FreshState(d), es).chain, d) <==> ValidChain(s.chain, d) && GapFree(s.mempool))
  {
    var s := Run(FreshState(d), Init(es));
    var e := Last(es);
    var b := PushedBlock(s, e.miner);
    RunReserves(d, Init(es));
    InvSequences(s);
    AppendStep(s, e);
    hide Inv, GapFree, ValidBlock, ValidChain, NoIdCollisions, NoncesWithin, SearchEnds, Appends, Step, Extends,
      PushedBlock;
    ExtendsChain(s, e.miner, b, Step(s, e));
    CollisionsInit(s.chain, b);
    MinedBlockValidIff(s, e.miner, b, Step(s, e));
    ExtendValidChain(s.chain, b, d);
  }

  /** `validate_block` on the node that has just mined, at the end of any run. */
  lemma LastBlockValidates(d: u64, es: seq<Event>)
    requires es != [] && Uninterrupted(d, es) && Appends(Run(FreshState(d), Init(es)), Last(es))
    requires NoIdCollisions(Run(FreshState(d), es).chain)
    ensures var s' := Run(FreshState(d), es);
      && s'.chain != []
      && ValidateAnswer(s'.chain, s'.accounts, s'.difficulty, Last(s'.chain))
         == Ok(GapFree(Run(FreshState(d), Init(es)).mempool))
  {
    var s := Run(FreshState(d), Init(es));
    var e := Last(es);
    var b := PushedBlock(s, e.miner);
    RunReserves(d, Init(es));
    InvSequences(s);
    AppendStep(s, e);
    hide Inv, Sequenced, GapFree, NoIdCollisions, NoncesWithin, SearchEnds, Appends, Step, Extends, PushedBlock,
      ValidateAnswer;
    ExtendsChain(s, e.miner, b, Step(s, e));
    CollisionsInit(s.chain, b);
    MinedBlockValidates(s, e.miner, b, Step(s, e));
  }

  /** The exact agreement of miner and chain validator, which is handed the difficulty cut to 32 bits: a mined chain is
      accepted if and only if nothing was cut off (or nothing mined) and no block was mined over a gap. */
  lemma AgreementIsExact(d: u64, es: seq<Event>)
    requires Uninterrupted(d, es)
    requires NoIdCollisions(Run(FreshState(d), es).chain)
    ensures var chain := Run(FreshState(d), es).chain;
      chain != [] ==> (ValidChain(chain, d % TWO32) <==> d < TWO32 && GapFreeMines(FreshState(d), es))
  {
    hide ValidChain, NoIdCollisions, Uninterrupted, GapFreeMines, Run;
    var chain := Run(FreshState(d), es).chain;
    if d < TWO32 {
      assert d % TWO32 == d;
      MinedChainValidIff(d, es);
    } else if chain != [] && ValidChain(chain, d % TWO32) {
      MinedDifficulty(d, es);
      ValidChainDifficulty(chain, d % TWO32);
    }
  }

  lemma ValidChainDifficulty(chain: seq<Block>, difficulty: nat)
    requires ValidChain(chain, difficulty) && chain != []
    ensures chain[0].difficulty == difficulty
  {
  }

  lemma {:induction false} MinedDifficulty(d: u64, es: seq<Event>)
    requires Uninterrupted(d, es)
    ensures var chain := Run(FreshState(d), es).chain; chain != [] ==> chain[0].difficulty == d
  {
    if es != [] {
      var s := Run(FreshState(d), Init(es));
      MinedDifficulty(d, Init(es));
      RunReserves(d, Init(es));
      hide Inv, NoncesWithin, SearchEnds, Appends, Step;
      if Appends(s, Last(es)) {
        AppendStep(s, Last(es));
        assert Step(s, Last(es)).chain[0] == if s.chain == [] then Last(Step(s, Last(es)).chain) else s.chain[0];
      } else {
        QuietStep(s, Last(es));
      }
    }
  }
}
