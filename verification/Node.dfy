/** The node: `Blockchain` as the source has it, updated in place, each method proved against the ledger's steps. */
module Node {
  import opened Machine
  import opened Fee
  import opened Encoding
  import opened Crypto
  import opened Transaction
  import opened HashLayout
  import opened ProofOfWork
  import opened Order
  import opened Ledger
  import opened Runs
  import opened Validation
  import opened Replay

  // ---- the pending list ----

  ghost predicate DistinctKeys(txs: seq<SignedTransaction>) {
    forall i, j | 0 <= i < j < |txs| :: KeyOf(txs[i]) != KeyOf(txs[j])
  }

  /** The mempool's values, in whatever order the map yields them. */
  method CollectPending(pool: Pool) returns (txs: seq<SignedTransaction>)
    requires Keyed(pool)
    ensures Lists(txs, pool) && DistinctKeys(txs)
  {
    txs := [];
    var todo := pool.Keys;
    while todo != {}
      invariant todo <= pool.Keys
      invariant Lists(txs, pool - todo) && DistinctKeys(txs)
      decreases todo
    {
      var k :| k in todo;
      CollectedNext(txs, pool, todo, k);
      txs := txs + [pool[k]];
      todo := todo - {k};
    }
    assert pool - todo == pool;
  }

  lemma CollectedNext(txs: seq<SignedTransaction>, pool: Pool, todo: set<Key>, k: Key)
    requires Keyed(pool) && k in todo && todo <= pool.Keys
    requires Lists(txs, pool - todo) && DistinctKeys(txs)
    ensures Lists(txs + [pool[k]], pool - (todo - {k})) && DistinctKeys(txs + [pool[k]])
  {
    var longer := txs + [pool[k]];
    assert forall tx :: tx in longer <==> tx in txs || tx == pool[k];
    forall k' | k' in pool - (todo - {k})
      ensures pool[k'] in longer
    {
      if k' != k {
        assert k' in pool - todo;
      }
    }
    forall i | 0 <= i < |txs|
      ensures KeyOf(txs[i]) != k
    {
      assert txs[i] in txs;
    }
  }

  /** Insert before the first entry with a greater key. */
  function Insert(txs: seq<SignedTransaction>, tx: SignedTransaction): seq<SignedTransaction> {
    if txs == [] || KeyLess(KeyOf(tx), KeyOf(txs[0])) then [tx] + txs
    else [txs[0]] + Insert(txs[1..], tx)
  }

  lemma {:induction false} InsertMembers(txs: seq<SignedTransaction>, tx: SignedTransaction, x: SignedTransaction)
    ensures x in Insert(txs, tx) <==> x in txs || x == tx
  {
    if txs != [] {
      InsertMembers(txs[1..], tx, x);
      assert x in txs <==> x == txs[0] || x in txs[1..];
    }
  }

  lemma {:induction false} InsertSorted(txs: seq<SignedTransaction>, tx: SignedTransaction)
    requires StrictlySorted(txs) && forall i | 0 <= i < |txs| :: KeyOf(txs[i]) != KeyOf(tx)
    ensures StrictlySorted(Insert(txs, tx))
  {
    if txs == [] {
    } else if KeyLess(KeyOf(tx), KeyOf(txs[0])) {
      forall i | 0 <= i < |txs|
        ensures KeyLess(KeyOf(tx), KeyOf(txs[i]))
      {
        if i > 0 {
          KeyLessTransitive(KeyOf(tx), KeyOf(txs[0]), KeyOf(txs[i]));
        }
      }
      ConsSorted(tx, txs);
    } else {
      InsertSorted(txs[1..], tx);
      KeyLessTotal(KeyOf(tx), KeyOf(txs[0]));
      var rest := Insert(txs[1..], tx);
      forall i | 0 <= i < |rest|
        ensures KeyLess(KeyOf(txs[0]), KeyOf(rest[i]))
      {
        InsertMembers(txs[1..], tx, rest[i]);
        assert rest[i] in rest;
        if rest[i] in txs[1..] {
          var j :| 0 <= j < |txs[1..]| && txs[1..][j] == rest[i];
          assert txs[j + 1] == rest[i];
        }
      }
      ConsSorted(txs[0], rest);
    }
  }

  /** Sort by sender, then nonce. */
  method SortPending(txs: seq<SignedTransaction>) returns (sorted: seq<SignedTransaction>)
    requires DistinctKeys(txs)
    ensures StrictlySorted(sorted)
    ensures forall x :: x in sorted <==> x in txs
  {
    sorted := [];
    var i := 0;
    while i < |txs|
      invariant 0 <= i <= |txs|
      invariant StrictlySorted(sorted)
      invariant forall x :: x in sorted <==> x in txs[..i]
    {
      forall j | 0 <= j < |sorted|
        ensures KeyOf(sorted[j]) != KeyOf(txs[i])
      {
        assert sorted[j] in sorted;
      }
      InsertSorted(sorted, txs[i]);
      forall x
        ensures x in Insert(sorted, txs[i]) <==> x in txs[..i + 1]
      {
        InsertMembers(sorted, txs[i], x);
        assert txs[..i + 1] == txs[..i] + [txs[i]];
      }
      sorted := Insert(sorted, txs[i]);
      i := i + 1;
    }
    assert txs[..i] == txs;
  }

  /** Whatever order the map yields, the block's list is the same. */
  method PendingInOrder(pool: Pool) returns (txs: seq<SignedTransaction>)
    requires Keyed(pool)
    ensures txs == SortedPool(pool)
  {
    var collected := CollectPending(pool);
    txs := SortPending(collected);
    assert Lists(txs, pool);
    SortedListingIsUnique(txs, pool);
  }

  method SumFees(txs: seq<SignedTransaction>) returns (feeC: nat, feeI: nat)
    ensures feeC == ListFee(txs, Consumer) && feeI == ListFee(txs, Industrial)
  {
    feeC, feeI := 0, 0;
    var i := 0;
    while i < |txs|
      invariant 0 <= i <= |txs|
      invariant feeC == ListFee(txs[..i], Consumer) && feeI == ListFee(txs[..i], Industrial)
    {
      FeeSnoc(txs, i, Consumer);
      FeeSnoc(txs, i, Industrial);
      var split := Decompose(txs[i].payload.feeSelector, txs[i].payload.fee);
      if split.Ok? {
        feeC := feeC + split.value.ct;
        feeI := feeI + split.value.it;
      }
      i := i + 1;
    }
    assert txs[..i] == txs;
  }

  /** The proof-of-work loop: the least nonce whose hash meets the target, or none in the whole word. */
  method SearchNonce(c: Block, target: nat) returns (r: Option<Block>)
    ensures r == match FirstNonce(EncoderOf(c), target, 0) case None => None case Some(n) => Some(Sealed(c, n))
  {
    var nonce: u64 := 0;
    while true
      invariant FirstNonce(EncoderOf(c), target, 0) == FirstNonce(EncoderOf(c), target, nonce)
      decreases TWO64 - nonce
    {
      var tried := c.(nonce := nonce);
      assert EncoderOf(tried) == EncoderOf(c).(nonce := nonce);
      var hash := CalculateHash(tried);
      HexRoundTrip(Blake3(EncoderOf(tried).Preimage()));
      var bytes := HexToBytes(hash);
      var zeros := CountLeadingZeroBits(bytes.value);
      if zeros >= target {
        return Some(c.(nonce := nonce, hash := hash));
      }
      if nonce == TWO64 - 1 {
        return None;
      }
      nonce := nonce + 1;
    }
  }

  class Blockchain {
    var chain: seq<Block>
    var accounts: Accounts
    var difficulty: u64
    var mempool: Pool
    var emissionConsumer: u64
    var emissionIndustrial: u64
    var blockRewardConsumer: u64
    var blockRewardIndustrial: u64
    var blockHeight: u64

    /** Every mempool entry sits under its own key. */
    ghost predicate Valid()
      reads this
    {
      Keyed(mempool)
    }

    ghost function State(): State
      reads this
    {
      Ledger.State(chain, accounts, difficulty, mempool, emissionConsumer, emissionIndustrial,
                   blockRewardConsumer, blockRewardIndustrial, blockHeight)
    }

    /** `with_difficulty` on an empty database. */
    constructor WithDifficulty(difficulty: u64)
      ensures Valid() && State() == FreshState(difficulty)
    {
      chain, accounts, mempool := [], map[], map[];
      this.difficulty := difficulty;
      emissionConsumer, emissionIndustrial, blockHeight := 0, 0, 0;
      blockRewardConsumer, blockRewardIndustrial := InitialReward(Consumer), InitialReward(Industrial);
    }

    method AddAccount(address: Bytes, consumer: u64, industrial: u64) returns (r: Result<(), AccountError>)
      requires Valid()
      modifies this
      ensures Valid() && State() == Step(old(State()), AddAccountEvent(address, consumer, industrial))
      ensures r.Ok? <==> address !in old(accounts)
    {
      if address in accounts {
        return Err(AccountExists);
      }
      accounts := accounts[address := NewAccount(address, consumer, industrial)];
      return Ok(());
    }

    method SubmitTransaction(tx: SignedTransaction) returns (r: Result<(), SubmitError>)
      requires Valid()
      modifies this
      ensures Valid() && State() == Step(old(State()), SubmitEvent(tx))
      ensures match Submit(old(State()), tx) case Ok(_) => r.Ok? case Err(e) => r == Err(e)
    {
      var senderAddr := tx.payload.from_;
      if KeyOf(tx) in mempool {
        return Err(DuplicateTransaction);
      }
      if tx.payload.feeSelector > 2 {
        return Err(BadSelector);
      }
      if senderAddr !in accounts {
        return Err(SenderNotFound);
      }
      var sender := accounts[senderAddr];
      var split := Decompose(tx.payload.feeSelector, tx.payload.fee);
      if split.Err? {
        return Err(FeeRejected(split.error));
      }
      var totalC := Add64(tx.payload.amountConsumer, split.value.ct);
      var totalI := Add64(tx.payload.amountIndustrial, split.value.it);
      if || SatSub(sender.balance.consumer, sender.pendingConsumer) < totalC
         || SatSub(sender.balance.industrial, sender.pendingIndustrial) < totalI
      {
        return Err(InsufficientBalance);
      }
      if tx.payload.nonce != NextNonce(sender) {
        return Err(BadNonce);
      }
      if !VerifySignedTx(tx) {
        return Err(SignatureFailed);
      }
      accounts := accounts[senderAddr := sender.(
        pendingConsumer := Add64(sender.pendingConsumer, totalC),
        pendingIndustrial := Add64(sender.pendingIndustrial, totalI),
        pendingNonce := Add64(sender.pendingNonce, 1))];
      mempool := mempool[KeyOf(tx) := tx];
      return Ok(());
    }

    method DropTransaction(sender: Bytes, nonce: u64) returns (r: Result<(), DropError>)
      requires Valid()
      modifies this
      ensures Valid() && State() == Step(old(State()), DropEvent(sender, nonce))
      ensures r.Ok? <==> Key(sender, nonce) in old(mempool)
    {
      var k := Key(sender, nonce);
      if k !in mempool {
        return Err(TransactionNotFound);
      }
      var tx := mempool[k];
      mempool := mempool - {k};
      if sender in accounts {
        var split := Decompose(tx.payload.feeSelector, tx.payload.fee);
        if split.Ok? {
          var acc := accounts[sender];
          accounts := accounts[sender := acc.(
            pendingConsumer := SatSub(acc.pendingConsumer, Add64(tx.payload.amountConsumer, split.value.ct)),
            pendingIndustrial := SatSub(acc.pendingIndustrial, Add64(tx.payload.amountIndustrial, split.value.it)),
            pendingNonce := SatSub(acc.pendingNonce, 1))];
        }
      }
      return Ok(());
    }

    // ---- mining ----

    /** The settlement loop: debit, credit, forget. */
    method SettleInPlace(txs: seq<SignedTransaction>)
      modifies `accounts, `mempool
      ensures accounts == Settle(old(accounts), txs)
      ensures old(mempool) == map[] ==> mempool == map[]
    {
      var i := 0;
      while i < |txs|
        invariant 0 <= i <= |txs|
        invariant Settle(accounts, txs[i..]) == Settle(old(accounts), txs)
        invariant old(mempool) == map[] ==> mempool == map[]
      {
        var tx := txs[i];
        ghost var before := accounts;
        assert txs[i..][1..] == txs[i + 1..];
        if tx.payload.from_ != COINBASE && tx.payload.from_ in accounts {
          var s := accounts[tx.payload.from_];
          var totalC, totalI := Cost(tx, Consumer), Cost(tx, Industrial);
          accounts := accounts[tx.payload.from_ := s.(
            balance := TokenBalance(SatSub(s.balance.consumer, totalC), SatSub(s.balance.industrial, totalI)),
            pendingConsumer := SatSub(s.pendingConsumer, totalC),
            pendingIndustrial := SatSub(s.pendingIndustrial, totalI),
            pendingNonce := SatSub(s.pendingNonce, 1),
            nonce := tx.payload.nonce)];
        }
        assert accounts == Debit(before, tx);
        CreditInPlace(tx.payload.to, tx.payload.amountConsumer, tx.payload.amountIndustrial);
        assert accounts == SettleOne(before, tx);
        mempool := mempool - {KeyOf(tx)};
        i := i + 1;
      }
    }

    method CreditInPlace(a: Bytes, consumer: u64, industrial: u64)
      modifies `accounts
      ensures accounts == Credit(old(accounts), a, consumer, industrial)
    {
      if a !in accounts {
        accounts := accounts[a := NewAccount(a, 0, 0)];
      }
      var r := accounts[a];
      accounts := accounts[a := r.(balance := TokenBalance(Add64(r.balance.consumer, consumer),
                                                           Add64(r.balance.industrial, industrial)))];
    }

    /** Decay the rewards, clamp them, gather the mempool and put the unsealed block together. */
    method BuildCandidate(minerAddr: Bytes) returns (r: Result<Block, MineError>, rewardC: u64, rewardI: u64)
      requires Valid()
      modifies `blockRewardConsumer, `blockRewardIndustrial
      ensures r == Candidate(old(State()), minerAddr)
      ensures rewardC == Minted(old(State()), Consumer) && rewardI == Minted(old(State()), Industrial)
      ensures blockRewardConsumer == Decay(old(blockRewardConsumer))
      ensures blockRewardIndustrial == Decay(old(blockRewardIndustrial))
    {
      hide SortedPool, FeeChecksum;
      var prevHash := if |chain| == 0 then ZERO_HASH else chain[|chain| - 1].hash;
      blockRewardConsumer := blockRewardConsumer * DECAY_NUMERATOR / DECAY_DENOMINATOR;
      blockRewardIndustrial := blockRewardIndustrial * DECAY_NUMERATOR / DECAY_DENOMINATOR;
      rewardC, rewardI := blockRewardConsumer, blockRewardIndustrial;
      if Add64(emissionConsumer, rewardC) > MAX_SUPPLY {
        rewardC := Sub64(MAX_SUPPLY, emissionConsumer);
      }
      if Add64(emissionIndustrial, rewardI) > MAX_SUPPLY {
        rewardI := Sub64(MAX_SUPPLY, emissionIndustrial);
      }
      var pending := PendingInOrder(mempool);
      var feeC, feeI := SumFees(pending);
      if feeC >= TWO64 || feeI >= TWO64 || rewardC + feeC >= TWO64 || rewardI + feeI >= TWO64 {
        r := Err(FeeOverflow);
        return;
      }
      var cbC: u64, cbI: u64 := rewardC + feeC, rewardI + feeI;
      r := Ok(Block(Len64(|chain|), prevHash, [CoinbaseTx(minerAddr, cbC, cbI)] + pending, difficulty, 0, [],
                    cbC, cbI, FeeChecksum(feeC, feeI)));
    }

    /** Credit the miner; `false` is the panic of the `expect` on its balance. */
    method PayMiner(minerAddr: Bytes, cbC: u64, cbI: u64) returns (paid: bool)
      modifies `accounts
      ensures paid <==> BalAt(old(accounts), minerAddr, Consumer) + cbC < TWO64
                        && BalAt(old(accounts), minerAddr, Industrial) + cbI < TWO64
      ensures accounts
              == if BalAt(old(accounts), minerAddr, Consumer) + cbC >= TWO64 then Credit(old(accounts), minerAddr, 0, 0)
                 else if !paid then Credit(old(accounts), minerAddr, cbC, 0)
                 else Credit(old(accounts), minerAddr, cbC, cbI)
    {
      hide Credit;
      EmptyCredit(accounts, minerAddr, cbC, cbI);
      CreditInPlace(minerAddr, 0, 0);
      if accounts[minerAddr].balance.consumer + cbC >= TWO64 {
        return false;
      }
      if accounts[minerAddr].balance.industrial + cbI >= TWO64 {
        CreditInPlace(minerAddr, cbC, 0);
        return false;
      }
      CreditInPlace(minerAddr, cbC, cbI);
      return true;
    }

    /** `mine_block`. `MinerOverflow` is the panic of its `expect`. */
    method MineBlock(minerAddr: Bytes) returns (r: Result<Block, MineError>)
      requires Valid()
      modifies this
      ensures Valid() && State() == MineState(old(State()), minerAddr)
      ensures r == MineOutcome(old(State()), minerAddr)
    {
      hide FirstNonce, Settle, Credit, Candidate, Minted;
      var built, rewardC, rewardI := BuildCandidate(minerAddr);
      if built.Err? {
        return built;
      }
      mempool := map[];
      var found := SearchNonce(built.value, difficulty % TWO32);
      if found.None? {
        return Err(NonceOverflow);
      }
      var block := found.value;
      CandidateCoinbase(old(State()), minerAddr);
      chain := chain + [block];
      SettleInPlace(block.transactions[1..]);
      var paid := PayMiner(minerAddr, block.coinbaseConsumer, block.coinbaseIndustrial);
      if !paid {
        return Err(MinerOverflow);
      }
      emissionConsumer := Add64(emissionConsumer, rewardC);
      emissionIndustrial := Add64(emissionIndustrial, rewardI);
      blockHeight := Add64(blockHeight, 1);
      return Ok(block);
    }

    // ---- validation and import ----

    method ValidateBlock(block: Block) returns (r: Result<bool, ValidateError>)
      requires |block.transactions| < TWO64
      ensures r == ValidateAnswer(chain, accounts, difficulty, block)
    {
      r := Validation.ValidateBlock(chain, accounts, difficulty, block);
    }

    /** The import loop over a block's non-coinbase transactions. */
    method ReplayInPlace(txs: seq<SignedTransaction>) returns (error: Option<ImportError>, feeC: nat, feeI: nat)
      modifies `accounts
      ensures accounts == TxsReached(old(accounts), txs)
      ensures match ReplayTxs(old(accounts), txs)
              case Err(e) => error == Some(e)
              case Ok(accts) =>
                && error == None && accounts == accts
                && feeC == ReplayFees(old(accounts), txs, Consumer) && feeI == ReplayFees(old(accounts), txs, Industrial)
    {
      error, feeC, feeI := None, 0, 0;
      var i := 0;
      while i < |txs|
        invariant 0 <= i <= |txs| && error == None
        invariant ReplayTxs(accounts, txs[i..]) == ReplayTxs(old(accounts), txs)
        invariant TxsReached(accounts, txs[i..]) == TxsReached(old(accounts), txs)
        invariant feeC + ReplayFees(accounts, txs[i..], Consumer) == ReplayFees(old(accounts), txs, Consumer)
        invariant feeI + ReplayFees(accounts, txs[i..], Industrial) == ReplayFees(old(accounts), txs, Industrial)
      {
        var tx := txs[i];
        ghost var before := accounts;
        assert txs[i..][1..] == txs[i + 1..];
        if tx.payload.from_ != COINBASE {
          var bad := SignatureError(tx);
          if bad.Some? {
            return bad, 0, 0;
          }
          if tx.payload.from_ in accounts {
            var s := accounts[tx.payload.from_];
            accounts := accounts[tx.payload.from_ := s.(
              balance := TokenBalance(SatSub(s.balance.consumer, Cost(tx, Consumer)),
                                      SatSub(s.balance.industrial, Cost(tx, Industrial))),
              nonce := tx.payload.nonce)];
            feeC := feeC + FeeOf(tx, Consumer);
            feeI := feeI + FeeOf(tx, Industrial);
          }
        }
        assert accounts == ReplayDebit(before, tx);
        CreditInPlace(tx.payload.to, tx.payload.amountConsumer, tx.payload.amountIndustrial);
        i := i + 1;
      }
    }

    /** One turn of the import loop. */
    method ImportBlock(block: Block) returns (error: Option<ImportError>)
      modifies this
      ensures State() == BlockReached(old(State()), block)
      ensures match ReplayBlock(old(State()), block)
              case Err(e) => error == Some(e)
              case Ok(_) => error == None
    {
      hide ReplayTxs, ReplayFees, TxsReached, FeeChecksum, Credit, Body, MinerOf, Decay, BalAt;
      ReachedList(accounts, Body(block));
      var minerAddr := MinerOf(block);
      var failed, feeC, feeI := ReplayInPlace(Body(block));
      if failed.Some? {
        SignatureErrorOnly(old(accounts), Body(block));
        return failed;
      }
      if feeC >= TWO64 || feeI >= TWO64 {
        return Some(FeeSumOverflow);
      }
      if FeeChecksum(feeC, feeI) != block.feeChecksum {
        return Some(ChecksumMismatch);
      }
      if block.coinbaseConsumer < feeC || block.coinbaseIndustrial < feeI {
        return Some(FeeMismatch);
      }
      var paid := PayMiner(minerAddr, block.coinbaseConsumer, block.coinbaseIndustrial);
      if !paid {
        return Some(MinerBalanceOverflow);
      }
      if block.transactions != [] {
        var cb := block.transactions[0].payload;
        if cb.amountConsumer != block.coinbaseConsumer || cb.amountIndustrial != block.coinbaseIndustrial {
          return Some(CoinbaseMismatch);
        }
      }
      blockRewardConsumer := Decay(blockRewardConsumer);
      blockRewardIndustrial := Decay(blockRewardIndustrial);
      emissionConsumer := Add64(emissionConsumer, block.coinbaseConsumer);
      emissionIndustrial := Add64(emissionIndustrial, block.coinbaseIndustrial);
      chain := chain + [block];
      blockHeight := Add64(blockHeight, 1);
      return None;
    }

    /** `import_chain`: its answer, and the whole state it leaves. A chain that is no longer or not valid leaves the node
        untouched; a failure later on leaves it part-way, with the blocks before the failing one appended. */
    method ImportChain(newChain: seq<Block>) returns (r: Result<(), ImportError>)
      requires Valid() && forall i | 0 <= i < |newChain| :: |newChain[i].transactions| < TWO64
      modifies this
      ensures Valid() && State() == ImportState(old(State()), newChain)
      ensures match Import(old(State()), newChain) case Ok(_) => r.Ok? case Err(e) => r == Err(e)
    {
      hide ReplayBlock, ValidChain, BlockReached;
      ReachedOnSuccess(State(), newChain);
      if |newChain| <= |chain| {
        return Err(NotLonger);
      }
      var ok := IsValidChain(newChain, difficulty % TWO32);
      if !ok {
        return Err(InvalidChain);
      }
      chain, accounts := [], map[];
      emissionConsumer, emissionIndustrial, blockHeight := 0, 0, 0;
      blockRewardConsumer, blockRewardIndustrial := InitialReward(Consumer), InitialReward(Industrial);
      var i := 0;
      while i < |newChain|
        invariant 0 <= i <= |newChain| && mempool == old(mempool)
        invariant ReplayChain(Cleared(old(State())), newChain[..i]) == Ok(State())
      {
        assert Init(newChain[..i + 1]) == newChain[..i] && Last(newChain[..i + 1]) == newChain[i];
        ReachedMempool(State(), newChain[i]);
        var failed := ImportBlock(newChain[i]);
        if failed.Some? {
          ReplayStaysFailed(Cleared(old(State())), newChain, i + 1);
          return Err(failed.value);
        }
        i := i + 1;
      }
      assert newChain[..i] == newChain;
      return Ok(());
    }
  }

  lemma {:induction false} SignatureErrorOnly(accts: Accounts, txs: seq<SignedTransaction>)
    ensures var r := ReplayTxs(accts, txs); r.Err? ==> !r.error.MinerBalanceOverflow? && !r.error.CoinbaseMismatch?
    decreases |txs|
  {
    if txs != [] {
      SignatureErrorOnly(ReplayOne(accts, txs[0]), txs[1..]);
    }
  }

  lemma ReachedMempool(s: State, b: Block)
    ensures BlockReached(s, b).mempool == s.mempool
    ensures ReplayBlock(s, b).Ok? ==> BlockReached(s, b) == ReplayBlock(s, b).value
  {
    hide ReplayTxs, ReplayFees, TxsReached, FeeChecksum, Credit, Body, MinerOf;
  }

  lemma CandidateCoinbase(s: State, miner: Bytes)
    requires Candidate(s, miner).Ok?
    ensures Candidate(s, miner).value.transactions != []
    ensures Candidate(s, miner).value.difficulty == s.difficulty
  {
  }

  /** The first credit only creates the account. */
  lemma EmptyCredit(accts: Accounts, a: Bytes, consumer: u64, industrial: u64)
    ensures var touched := Credit(accts, a, 0, 0);
      && a in touched
      && Bal(touched[a], Consumer) == BalAt(accts, a, Consumer) && Bal(touched[a], Industrial) == BalAt(accts, a, Industrial)
      && Credit(touched, a, consumer, industrial) == Credit(accts, a, consumer, industrial)
      && Credit(touched, a, consumer, 0) == Credit(accts, a, consumer, 0)
  {
  }

  /** A replay that fails on a prefix fails the same way on the whole. */
  lemma {:induction false} ReplayStaysFailed(s: State, blocks: seq<Block>, i: nat)
    requires i <= |blocks| && ReplayChain(s, blocks[..i]).Err?
    ensures ReplayChain(s, blocks) == Err(ReplayChain(s, blocks[..i]).error)
    ensures ChainReached(s, blocks) == ChainReached(s, blocks[..i])
    decreases |blocks|
  {
    hide ReplayBlock, BlockReached;
    if i == |blocks| {
      assert blocks[..i] == blocks;
    } else {
      assert Init(blocks)[..i] == blocks[..i];
      ReplayStaysFailed(s, Init(blocks), i);
    }
  }
}
