/** The reservation invariant, and how each operation keeps it (docs/ledger_invariants.md). */
module Reservation {
  import opened Machine
  import opened Fee
  import opened Transaction
  import opened Order
  import opened MapSum
  import opened Ledger
  import opened Settlement

  // ---- what the mempool reserves ----

  ghost function CostMap(pool: Pool, a: Bytes, t: Token): map<Key, nat> {
    map k | k in pool && k.sender == a :: Cost(pool[k], t)
  }

  /** Sum of `amount + fee` over a sender's mempool entries. */
  ghost function PoolCost(pool: Pool, a: Bytes, t: Token): nat {
    Sum(CostMap(pool, a, t))
  }

  ghost function PoolKeys(pool: Pool, a: Bytes): set<Key> {
    set k | k in pool && k.sender == a
  }

  ghost predicate ReservedFor(acc: Account, pool: Pool, a: Bytes, t: Token) {
    Pend(acc, t) == PoolCost(pool, a, t) && Pend(acc, t) <= Bal(acc, t)
  }

  ghost predicate ReservedAt(acc: Account, pool: Pool, a: Bytes) {
    ReservedFor(acc, pool, a, Consumer) && ReservedFor(acc, pool, a, Industrial)
  }

  ghost predicate CountedAt(acc: Account, pool: Pool, a: Bytes) {
    && acc.pendingNonce == |PoolKeys(pool, a)|
    && (forall k | k in pool && k.sender == a :: acc.nonce < k.nonce)
  }

  /** What admission established of a transaction. */
  ghost predicate Admitted(tx: SignedTransaction) {
    Decompose(tx.payload.feeSelector, tx.payload.fee).Ok? && VerifySignedTx(tx)
  }

  /** The half of the invariant about nonces: every mempool entry sits under its own key, was admitted, and has a
      sender account; every account other than the coinbase address's counts its entries, all above its nonce. */
  ghost predicate Sequenced(s: State) {
    && Keyed(s.mempool)
    && (forall k | k in s.mempool :: k.sender in s.accounts && Admitted(s.mempool[k]))
    && (forall a | a in s.accounts && a != COINBASE :: CountedAt(s.accounts[a], s.mempool, a))
  }

  /** The reservation invariant: beside that, every such account holds exactly its entries' cost in reserve, and no
      more than its balance. */
  ghost predicate Inv(s: State) {
    && Sequenced(s)
    && (forall a | a in s.accounts && a != COINBASE :: ReservedAt(s.accounts[a], s.mempool, a))
  }

  /** No nonce, mined or pending, exceeds `n`. */
  ghost predicate NoncesWithin(s: State, n: nat) {
    && (forall a | a in s.accounts :: s.accounts[a].nonce + s.accounts[a].pendingNonce <= n)
    && (forall k | k in s.mempool :: k.nonce <= n)
  }

  // ---- the mempool, entry by entry ----

  lemma CostInsert(pool: Pool, k: Key, tx: SignedTransaction, a: Bytes, t: Token)
    requires k !in pool
    ensures PoolCost(pool[k := tx], a, t) == PoolCost(pool, a, t) + if k.sender == a then Cost(tx, t) else 0
  {
    if k.sender == a {
      assert CostMap(pool[k := tx], a, t) == CostMap(pool, a, t)[k := Cost(tx, t)];
      SumInsert(CostMap(pool, a, t), k, Cost(tx, t));
    } else {
      assert CostMap(pool[k := tx], a, t) == CostMap(pool, a, t);
    }
  }

  lemma CountInsert(pool: Pool, k: Key, tx: SignedTransaction, a: Bytes)
    requires k !in pool
    ensures |PoolKeys(pool[k := tx], a)| == |PoolKeys(pool, a)| + if k.sender == a then 1 else 0
  {
    if k.sender == a {
      assert PoolKeys(pool[k := tx], a) == PoolKeys(pool, a) + {k};
    } else {
      assert PoolKeys(pool[k := tx], a) == PoolKeys(pool, a);
    }
  }

  lemma CostRemove(pool: Pool, k: Key, a: Bytes, t: Token)
    requires k in pool
    ensures PoolCost(pool, a, t) == PoolCost(pool - {k}, a, t) + if k.sender == a then Cost(pool[k], t) else 0
  {
    CostInsert(pool - {k}, k, pool[k], a, t);
    assert (pool - {k})[k := pool[k]] == pool;
  }

  lemma CountRemove(pool: Pool, k: Key, a: Bytes)
    requires k in pool
    ensures |PoolKeys(pool, a)| == |PoolKeys(pool - {k}, a)| + if k.sender == a then 1 else 0
  {
    CountInsert(pool - {k}, k, pool[k], a);
    assert (pool - {k})[k := pool[k]] == pool;
  }

  lemma EmptyPool(pool: Pool, a: Bytes)
    requires forall k | k in pool :: k.sender != a
    ensures PoolCost(pool, a, Consumer) == 0 && PoolCost(pool, a, Industrial) == 0 && PoolKeys(pool, a) == {}
  {
  }

  /** The sorted listing reserves what the map reserves. */
  lemma {:induction false} SortedPoolCost(pool: Pool, a: Bytes, t: Token)
    requires Keyed(pool)
    ensures ListCost(SortedPool(pool), a, t) == PoolCost(pool, a, t)
    decreases |pool|
  {
    if pool == map[] {
      assert CostMap(pool, a, t) == map[];
    } else {
      var k := LeastKey(pool.Keys);
      assert (pool - {k}).Keys == pool.Keys - {k};
      SortedPoolCost(pool - {k}, a, t);
      CostRemove(pool, k, a, t);
      assert SortedPool(pool)[1..] == SortedPool(pool - {k});
    }
  }

  lemma {:induction false} SortedPoolCount(pool: Pool, a: Bytes)
    requires Keyed(pool)
    ensures ListCount(SortedPool(pool), a) == |PoolKeys(pool, a)|
    decreases |pool|
  {
    if pool == map[] {
      assert PoolKeys(pool, a) == {};
    } else {
      var k := LeastKey(pool.Keys);
      assert (pool - {k}).Keys == pool.Keys - {k};
      SortedPoolCount(pool - {k}, a);
      CountRemove(pool, k, a);
      assert SortedPool(pool)[1..] == SortedPool(pool - {k});
    }
  }

  lemma PooledSenders(s: State)
    requires Sequenced(s)
    ensures forall i | 0 <= i < |SortedPool(s.mempool)| :: SortedPool(s.mempool)[i].payload.from_ in s.accounts
  {
    var txs := SortedPool(s.mempool);
    SortedPoolLists(s.mempool);
    forall i | 0 <= i < |txs|
      ensures txs[i].payload.from_ in s.accounts
    {
      assert txs[i] in txs;
      assert KeyOf(txs[i]) in s.mempool;
    }
  }

  lemma InvBacksPool(s: State)
    requires Inv(s)
    ensures Backed(s.accounts, SortedPool(s.mempool))
  {
    hide Admitted;
    PooledSenders(s);
    forall a | a in s.accounts && a != COINBASE
      ensures BackedAt(s.accounts[a], SortedPool(s.mempool), a)
    {
      ReservedBacksPool(s.accounts[a], s.mempool, a);
    }
  }

  lemma ReservedBacksPool(acc: Account, pool: Pool, a: Bytes)
    requires Keyed(pool) && ReservedAt(acc, pool, a) && CountedAt(acc, pool, a)
    ensures BackedAt(acc, SortedPool(pool), a)
  {
    SortedPoolCost(pool, a, Consumer);
    SortedPoolCost(pool, a, Industrial);
    SortedPoolCount(pool, a);
  }

  // ---- one account at a time ----

  /** The reservation never wraps: what is already pending plus the new cost is covered by the balance. */
  lemma ReserveIsExact(acc: Account, tx: SignedTransaction, t: Token)
    requires Covers(acc, tx, t)
    ensures Pend(acc, t) + Cost(tx, t) < TWO64
    ensures Pend(acc, t) <= Bal(acc, t) ==> Pend(acc, t) + Cost(tx, t) <= Bal(acc, t)
  {
  }

  lemma ReserveKeeps(acc: Account, pool: Pool, tx: SignedTransaction)
    requires ReservedAt(acc, pool, tx.payload.from_) && KeyOf(tx) !in pool
    requires Covers(acc, tx, Consumer) && Covers(acc, tx, Industrial)
    ensures ReservedAt(Reserve(acc, tx), pool[KeyOf(tx) := tx], tx.payload.from_)
  {
    ReserveIsExact(acc, tx, Consumer);
    ReserveIsExact(acc, tx, Industrial);
    CostInsert(pool, KeyOf(tx), tx, tx.payload.from_, Consumer);
    CostInsert(pool, KeyOf(tx), tx, tx.payload.from_, Industrial);
  }

  lemma ReserveCounts(acc: Account, pool: Pool, tx: SignedTransaction)
    requires CountedAt(acc, pool, tx.payload.from_) && KeyOf(tx) !in pool
    requires tx.payload.nonce == NextNonce(acc) && acc.nonce + acc.pendingNonce + 1 < TWO64
    ensures CountedAt(Reserve(acc, tx), pool[KeyOf(tx) := tx], tx.payload.from_)
  {
    CountInsert(pool, KeyOf(tx), tx, tx.payload.from_);
  }

  lemma ReleaseIsExact(acc: Account, pool: Pool, k: Key, t: Token)
    requires k in pool && ReservedFor(acc, pool, k.sender, t)
    ensures Cost(pool[k], t) <= Pend(acc, t)
    ensures PoolCost(pool - {k}, k.sender, t) == Pend(acc, t) - Cost(pool[k], t) <= Bal(acc, t)
  {
    CostRemove(pool, k, k.sender, t);
  }

  lemma ReleaseKeeps(acc: Account, pool: Pool, k: Key)
    requires k in pool && ReservedAt(acc, pool, k.sender)
    ensures ReservedAt(Release(acc, pool[k]), pool - {k}, k.sender)
  {
    ReleaseIsExact(acc, pool, k, Consumer);
    ReleaseIsExact(acc, pool, k, Industrial);
  }

  lemma ReleaseCounts(acc: Account, pool: Pool, k: Key)
    requires k in pool && CountedAt(acc, pool, k.sender)
    ensures CountedAt(Release(acc, pool[k]), pool - {k}, k.sender)
  {
    CountRemove(pool, k, k.sender);
  }

  /** An entry says nothing of other senders. */
  lemma InsertKeepsOthers(acc: Account, pool: Pool, k: Key, tx: SignedTransaction, a: Bytes)
    requires k !in pool && k.sender != a
    ensures ReservedAt(acc, pool[k := tx], a) <==> ReservedAt(acc, pool, a)
    ensures CountedAt(acc, pool, a) ==> CountedAt(acc, pool[k := tx], a)
  {
    CostInsert(pool, k, tx, a, Consumer);
    CostInsert(pool, k, tx, a, Industrial);
    CountInsert(pool, k, tx, a);
  }

  lemma RemoveKeepsOthers(acc: Account, pool: Pool, k: Key, a: Bytes)
    requires k in pool && k.sender != a
    ensures ReservedAt(acc, pool - {k}, a) <==> ReservedAt(acc, pool, a)
    ensures CountedAt(acc, pool, a) ==> CountedAt(acc, pool - {k}, a)
  {
    CostRemove(pool, k, a, Consumer);
    CostRemove(pool, k, a, Industrial);
    CountRemove(pool, k, a);
  }

  // ---- each operation ----

  lemma AddAccountKeeps(s: State, a: Bytes, consumer: u64, industrial: u64, n: nat)
    requires Sequenced(s) && NoncesWithin(s, n)
    requires AddAccount(s, a, consumer, industrial).Ok?
    ensures var s' := AddAccount(s, a, consumer, industrial).value;
      Sequenced(s') && NoncesWithin(s', n) && (Inv(s) ==> Inv(s'))
  {
    hide Admitted;
    EmptyPool(s.mempool, a);
    var s' := AddAccount(s, a, consumer, industrial).value;
    assert ReservedAt(s'.accounts[a], s'.mempool, a) && CountedAt(s'.accounts[a], s'.mempool, a);
  }

  lemma AcceptedSubmit(s: State, tx: SignedTransaction)
    requires Submit(s, tx).Ok?
    ensures var from_ := tx.payload.from_;
      && KeyOf(tx) !in s.mempool
      && from_ in s.accounts
      && Covers(s.accounts[from_], tx, Consumer) && Covers(s.accounts[from_], tx, Industrial)
      && tx.payload.nonce == NextNonce(s.accounts[from_])
      && Decompose(tx.payload.feeSelector, tx.payload.fee).Ok? && VerifySignedTx(tx)
      && Submit(s, tx).value == s.(accounts := s.accounts[from_ := Reserve(s.accounts[from_], tx)],
                                   mempool := s.mempool[KeyOf(tx) := tx])
  {
  }

  lemma SubmitSequences(s: State, tx: SignedTransaction, n: nat)
    requires Sequenced(s) && NoncesWithin(s, n) && n + 1 < TWO64 && Submit(s, tx).Ok?
    ensures var s' := Submit(s, tx).value; Sequenced(s') && NoncesWithin(s', n + 1)
  {
    hide VerifySignedTx, CountedAt, Covers;
    AcceptedSubmit(s, tx);
    var s' := Submit(s, tx).value;
    forall a | a in s.accounts && a != COINBASE
      ensures CountedAt(s'.accounts[a], s'.mempool, a)
    {
      if a == tx.payload.from_ {
        ReserveCounts(s.accounts[a], s.mempool, tx);
      } else {
        InsertKeepsOthers(s.accounts[a], s.mempool, KeyOf(tx), tx, a);
      }
    }
  }

  lemma SubmitReserves(s: State, tx: SignedTransaction, a: Bytes)
    requires Submit(s, tx).Ok? && a in s.accounts && ReservedAt(s.accounts[a], s.mempool, a)
    ensures var s' := Submit(s, tx).value; a in s'.accounts && ReservedAt(s'.accounts[a], s'.mempool, a)
  {
    hide VerifySignedTx, ReservedAt, Covers;
    AcceptedSubmit(s, tx);
    if a == tx.payload.from_ {
      ReserveKeeps(s.accounts[a], s.mempool, tx);
    } else {
      InsertKeepsOthers(s.accounts[a], s.mempool, KeyOf(tx), tx, a);
    }
  }

  /** An admitted transaction keeps the invariant, whether or not its sums wrap. */
  lemma SubmitKeeps(s: State, tx: SignedTransaction, n: nat)
    requires Sequenced(s) && NoncesWithin(s, n) && n + 1 < TWO64 && Submit(s, tx).Ok?
    ensures var s' := Submit(s, tx).value; Sequenced(s') && NoncesWithin(s', n + 1) && (Inv(s) ==> Inv(s'))
  {
    SubmitSequences(s, tx, n);
    hide Sequenced, NoncesWithin, ReservedAt, VerifySignedTx, Covers;
    var s' := Submit(s, tx).value;
    if Inv(s) {
      forall a | a in s'.accounts && a != COINBASE
        ensures ReservedAt(s'.accounts[a], s'.mempool, a)
      {
        AcceptedSubmit(s, tx);
        SubmitReserves(s, tx, a);
      }
    }
  }

  lemma AcceptedDrop(s: State, sender: Bytes, nonce: u64)
    requires Sequenced(s) && Key(sender, nonce) in s.mempool
    ensures sender in s.accounts
    ensures Drop(s, sender, nonce)
            == Ok(s.(accounts := s.accounts[sender := Release(s.accounts[sender], s.mempool[Key(sender, nonce)])],
                     mempool := s.mempool - {Key(sender, nonce)}))
  {
    hide VerifySignedTx, CountedAt;
    assert Admitted(s.mempool[Key(sender, nonce)]);
  }

  lemma DropSequences(s: State, sender: Bytes, nonce: u64, n: nat)
    requires Sequenced(s) && NoncesWithin(s, n) && Key(sender, nonce) in s.mempool
    ensures var s' := Drop(s, sender, nonce).value; Sequenced(s') && NoncesWithin(s', n)
  {
    hide Admitted, CountedAt;
    AcceptedDrop(s, sender, nonce);
    var s' := Drop(s, sender, nonce).value;
    var k := Key(sender, nonce);
    forall a | a in s'.accounts && a != COINBASE
      ensures CountedAt(s'.accounts[a], s'.mempool, a)
    {
      if a == sender {
        ReleaseCounts(s.accounts[a], s.mempool, k);
      } else {
        RemoveKeepsOthers(s.accounts[a], s.mempool, k, a);
      }
    }
  }

  /** So does the drop of any pending transaction. */
  lemma DropKeeps(s: State, sender: Bytes, nonce: u64, n: nat)
    requires Sequenced(s) && NoncesWithin(s, n) && Drop(s, sender, nonce).Ok?
    ensures var s' := Drop(s, sender, nonce).value; Sequenced(s') && NoncesWithin(s', n) && (Inv(s) ==> Inv(s'))
  {
    DropSequences(s, sender, nonce, n);
    AcceptedDrop(s, sender, nonce);
    hide Sequenced, NoncesWithin, ReservedAt;
    var s' := Drop(s, sender, nonce).value;
    var k := Key(sender, nonce);
    if Inv(s) {
      forall a | a in s'.accounts && a != COINBASE
        ensures ReservedAt(s'.accounts[a], s'.mempool, a)
      {
        if a == sender {
          ReleaseKeeps(s.accounts[a], s.mempool, k);
        } else {
          RemoveKeepsOthers(s.accounts[a], s.mempool, k, a);
        }
      }
    }
  }

  /** Seeds are all that the mempool operations add to any total. */
  lemma MempoolOpsKeepTotals(accts: Accounts, a: Bytes, acc: Account, t: Token)
    requires a in accts && acc.balance == accts[a].balance
    ensures Total(accts[a := acc], t) == Total(accts, t)
  {
    TotalUpdate(accts, a, acc, t);
  }

  // ---- mining: reservations and nonces ----

  ghost predicate NothingPending(acc: Account) {
    acc.pendingConsumer == 0 && acc.pendingIndustrial == 0 && acc.pendingNonce == 0
  }

  lemma PooledCount(s: State, a: Bytes)
    requires Sequenced(s) && a != COINBASE
    ensures ListCount(SortedPool(s.mempool), a) == PendingNonceAt(s.accounts, a)
  {
    hide SortedPool, Admitted;
    SortedPoolCount(s.mempool, a);
    if a !in s.accounts {
      PooledSenders(s);
      NothingFrom(SortedPool(s.mempool), a);
    }
  }

  lemma PooledCost(s: State, a: Bytes, t: Token)
    requires Inv(s) && a != COINBASE
    ensures ListCost(SortedPool(s.mempool), a, t) == PendAt(s.accounts, a, t)
  {
    hide SortedPool, Admitted, CountedAt;
    SortedPoolCost(s.mempool, a, t);
    if a !in s.accounts {
      PooledSenders(s);
      NothingFrom(SortedPool(s.mempool), a);
    } else {
      assert ReservedFor(s.accounts[a], s.mempool, a, t) by {
        assert ReservedAt(s.accounts[a], s.mempool, a);
      }
    }
  }

  /** An appended block empties every sender's nonce reservation but the coinbase address's. */
  lemma MinedPendingNonce(s: State, miner: Bytes, b: Block, s': State, a: Bytes)
    requires Sequenced(s) && Extends(s, miner, b, s')
    ensures PendingNonceAt(s'.accounts, a) == if a == COINBASE then PendingNonceAt(s.accounts, a) else 0
  {
    hide Sequenced, BuiltFrom, BlockHash, LeastNonce, SortedPool, Settle;
    if a != COINBASE {
      PooledCount(s, a);
    }
    SettleCount(s.accounts, SortedPool(s.mempool), a);
  }

  lemma MinedPend(s: State, miner: Bytes, b: Block, s': State, a: Bytes, t: Token)
    requires Inv(s) && Extends(s, miner, b, s')
    ensures PendAt(s'.accounts, a, t) == if a == COINBASE then PendAt(s.accounts, a, t) else 0
  {
    hide Inv, BuiltFrom, BlockHash, LeastNonce, SortedPool, Settle;
    if a != COINBASE {
      PooledCost(s, a, t);
    }
    SettlePend(s.accounts, SortedPool(s.mempool), a, t);
  }

  lemma MineSequences(s: State, miner: Bytes, b: Block, s': State, n: nat)
    requires Sequenced(s) && NoncesWithin(s, n) && Extends(s, miner, b, s')
    ensures Sequenced(s') && NoncesWithin(s', n)
  {
    hide Sequenced, BuiltFrom, BlockHash, LeastNonce, SortedPool, Settle, CountedAt;
    PooledNoncesWithin(s, n);
    forall a | a in s'.accounts
      ensures s'.accounts[a].nonce + s'.accounts[a].pendingNonce <= n
      ensures a != COINBASE ==> s'.accounts[a].pendingNonce == 0
    {
      MinedPendingNonce(s, miner, b, s', a);
      MinedNonceAt(s, miner, b, s', a);
      MinedNonceWithin(s, a, n);
    }
    ClearedIsSequenced(s');
  }

  lemma ClearedIsSequenced(s: State)
    requires s.mempool == map[]
    ensures Sequenced(s) <==> forall a | a in s.accounts && a != COINBASE :: s.accounts[a].pendingNonce == 0
  {
    forall a
      ensures PoolKeys(s.mempool, a) == {}
    {
      EmptyPool(s.mempool, a);
    }
    if Sequenced(s) {
      assert forall a | a in s.accounts && a != COINBASE :: CountedAt(s.accounts[a], s.mempool, a);
    }
  }

  lemma ClearedIsReserved(s: State)
    requires s.mempool == map[]
    ensures Inv(s) <==> forall a | a in s.accounts && a != COINBASE :: NothingPending(s.accounts[a])
  {
    hide Sequenced;
    ClearedIsSequenced(s);
    forall a | a in s.accounts
      ensures ReservedAt(s.accounts[a], s.mempool, a)
              <==> s.accounts[a].pendingConsumer == 0 && s.accounts[a].pendingIndustrial == 0
    {
      EmptyPool(s.mempool, a);
    }
    if Inv(s) {
      assert forall a | a in s.accounts && a != COINBASE :: ReservedAt(s.accounts[a], s.mempool, a);
    }
  }

  /** An appended block keeps the invariant and releases every reservation, whatever its credits wrap and whether or
      not the miner's balance overflows. */
  lemma MineKeeps(s: State, miner: Bytes, b: Block, s': State, n: nat)
    requires Sequenced(s) && NoncesWithin(s, n) && Extends(s, miner, b, s')
    ensures Sequenced(s') && NoncesWithin(s', n)
    ensures Inv(s) ==> Inv(s') && forall a | a in s'.accounts && a != COINBASE :: NothingPending(s'.accounts[a])
  {
    MineSequences(s, miner, b, s', n);
    hide Sequenced, NoncesWithin, Inv, BuiltFrom, BlockHash, LeastNonce, SortedPool, Settle;
    if Inv(s) {
      forall a | a in s'.accounts && a != COINBASE
        ensures NothingPending(s'.accounts[a])
      {
        InvSequences(s);
        MinedPendingNonce(s, miner, b, s', a);
        MinedPend(s, miner, b, s', a, Consumer);
        MinedPend(s, miner, b, s', a, Industrial);
      }
      ClearedIsReserved(s');
    }
  }

  lemma InvSequences(s: State)
    requires Inv(s)
    ensures Sequenced(s)
  {
  }

  /** The minted reward and the fees leave the word: `mine_block` then rejects the mempool untouched. */
  ghost predicate FeesOverflow(s: State) {
    || Minted(s, Consumer) + ListFee(SortedPool(s.mempool), Consumer) >= TWO64
    || Minted(s, Industrial) + ListFee(SortedPool(s.mempool), Industrial) >= TWO64
  }

  /** Exactly when a call of `mine_block` keeps the invariant. Overflowing fees and an appended block do, a miner whose
      balance overflows included. An exhausted nonce search has already cleared the mempool and leaves every
      reservation behind, so there the invariant survives only if nobody but the coinbase address had anything
      pending. */
  lemma MineKeepsIff(s: State, miner: Bytes)
    requires Inv(s)
    ensures Inv(MineState(s, miner))
            <==> FeesOverflow(s) || Pushes(s, miner) || forall k | k in s.mempool :: k.sender == COINBASE
  {
    hide FirstNonce, SortedPool, Settle, Sequenced, ReservedAt, NoncesWithin;
    if Candidate(s, miner).Err? {
      assert MineState(s, miner).accounts == s.accounts && MineState(s, miner).mempool == s.mempool;
      SameReservations(s, MineState(s, miner));
    } else if Pushes(s, miner) {
      var n := HighestNonce(s);
      PushedExtends(s, miner);
      MineKeeps(s, miner, PushedBlock(s, miner), MineState(s, miner), n);
    } else {
      StrandedIff(s, MineState(s, miner));
    }
  }

  lemma SameReservations(s: State, s': State)
    requires Inv(s) && s'.accounts == s.accounts && s'.mempool == s.mempool
    ensures Inv(s')
  {
  }

  lemma StrandedIff(s: State, s': State)
    requires Inv(s) && s'.accounts == s.accounts && s'.mempool == map[]
    ensures Inv(s') <==> forall k | k in s.mempool :: k.sender == COINBASE
  {
    hide ReservedFor, Admitted;
    ClearedIsReserved(s');
    forall a | a in s.accounts && a != COINBASE
      ensures NothingPending(s.accounts[a]) <==> PoolKeys(s.mempool, a) == {}
    {
      StrandedAt(s.accounts[a], s.mempool, a);
    }
    forall k | k in s.mempool && k.sender != COINBASE
      ensures !NothingPending(s.accounts[k.sender])
    {
      assert k in PoolKeys(s.mempool, k.sender);
    }
  }

  lemma StrandedAt(acc: Account, pool: Pool, a: Bytes)
    requires ReservedAt(acc, pool, a) && CountedAt(acc, pool, a)
    ensures NothingPending(acc) <==> PoolKeys(pool, a) == {}
  {
    if PoolKeys(pool, a) == {} {
      assert forall k | k in pool && k.sender == a :: k in PoolKeys(pool, a);
      EmptyPool(pool, a);
    }
  }

  /** Some bound on a state's nonces. */
  lemma HighestNonce(s: State) returns (n: nat)
    ensures NoncesWithin(s, n)
  {
    n := 2 * TWO64;
  }

  // ---- mining: balances ----

  /** Every credit of the next block fits: those of its settlement, where settlement reaches them, and the miner's. */
  ghost predicate CreditsFit(s: State, miner: Bytes) {
    var txs := SortedPool(s.mempool);
    !FeesOverflow(s) ==>
      && SettlesFit(s.accounts, txs)
      && Fits(Settle(s.accounts, txs), miner, Minted(s, Consumer) + ListFee(txs, Consumer),
              Minted(s, Industrial) + ListFee(txs, Industrial))
  }

  /** A block whose credits fit settles exactly at every point, and changes each token's total by the reward it mints
      and its unbacked payments, and by nothing else: fees cancel. */
  lemma MineConserves(s: State, miner: Bytes, b: Block, s': State)
    requires Inv(s) && CreditsFit(s, miner) && MinesTo(s, miner, b, s')
    ensures SettlesExactly(s.accounts, SortedPool(s.mempool))
    ensures forall t :: Total(s'.accounts, t)
                        == Total(s.accounts, t) + Minted(s, t) + ListUnbacked(SortedPool(s.mempool), t)
  {
    hide Inv, BlockHash, LeastNonce, SortedPool, Settle, Credit, SettlesFit, SettlesExactly, Backed;
    var txs := SortedPool(s.mempool);
    var settled := Settle(s.accounts, txs);
    InvBacksPool(s);
    SettleBacked(s.accounts, txs);
    TotalCredit(settled, miner, b.coinbaseConsumer, b.coinbaseIndustrial, Consumer);
    TotalCredit(settled, miner, b.coinbaseConsumer, b.coinbaseIndustrial, Industrial);
    forall t
      ensures Total(s'.accounts, t) == Total(s.accounts, t) + Minted(s, t) + ListUnbacked(txs, t)
    {
      assert t == Consumer || t == Industrial;
      assert Total(settled, t) + ListFee(txs, t) == Total(s.accounts, t) + ListUnbacked(txs, t);
    }
  }

  /** Room for what the next block can hand out. */
  ghost predicate Headroom(s: State, t: Token) {
    Total(s.accounts, t) + Minted(s, t) + ListUnbacked(SortedPool(s.mempool), t) < TWO64
  }

  lemma HeadroomFits(s: State, miner: Bytes)
    requires Inv(s) && Headroom(s, Consumer) && Headroom(s, Industrial)
    ensures !FeesOverflow(s) && CreditsFit(s, miner)
    ensures SettlesExactly(s.accounts, SortedPool(s.mempool))
  {
    hide Inv, Settle, SortedPool, SettlesFit, SettlesExactly, Backed;
    var txs := SortedPool(s.mempool);
    InvBacksPool(s);
    forall t
      ensures Total(s.accounts, t) + Minted(s, t) + ListUnbacked(txs, t) < TWO64
    {
      assert Headroom(s, t);
    }
    FitsWhenTotalsFit(s.accounts, txs);
    SettleBacked(s.accounts, txs);
    forall t
      ensures BalAt(Settle(s.accounts, txs), miner, t) + Minted(s, t) + ListFee(txs, t) < TWO64
    {
      TotalBounds(Settle(s.accounts, txs), miner, t);
      assert Total(Settle(s.accounts, txs), t) + ListFee(txs, t) == Total(s.accounts, t) + ListUnbacked(txs, t);
    }
  }

  /** A mine whose credits fit can fail only on its fee totals or on an exhausted nonce search. */
  lemma FittingMineSucceeds(s: State, miner: Bytes)
    requires CreditsFit(s, miner)
    ensures MineOutcome(s, miner).Ok? <==> Pushes(s, miner)
    ensures Candidate(s, miner).Err? <==> FeesOverflow(s)
  {
    hide FirstNonce, Settle, SettlesFit;
    if Candidate(s, miner).Ok? {
      assert Candidate(s, miner).value.transactions[1..] == SortedPool(s.mempool);
    }
  }

  lemma SucceedingMineFits(s: State, miner: Bytes)
    requires MineOutcome(s, miner).Ok? && SettlesFit(s.accounts, SortedPool(s.mempool))
    ensures CreditsFit(s, miner)
  {
    hide FirstNonce, Settle, SettlesFit;
    assert Candidate(s, miner).value.transactions[1..] == SortedPool(s.mempool);
  }

  /** With headroom, mining meets no arithmetic fault: each settlement step is exact, the fee totals, the
      coinbase and the miner's credit all fit, and the only failure left is an exhausted nonce search. */
  lemma MiningIsFaultFree(s: State, miner: Bytes)
    requires Inv(s) && Headroom(s, Consumer) && Headroom(s, Industrial)
    ensures SettlesExactly(s.accounts, SortedPool(s.mempool))
    ensures Candidate(s, miner).Ok?
    ensures MineOutcome(s, miner) == if Pushes(s, miner) then Ok(PushedBlock(s, miner)) else Err(NonceOverflow)
  {
    hide Inv, FirstNonce, Settle, SettlesFit;
    HeadroomFits(s, miner);
    FittingMineSucceeds(s, miner);
  }

  // ---- nonces through a block ----

  lemma {:induction false} LastNonceWithin(txs: seq<SignedTransaction>, a: Bytes, m: u64, n: nat)
    requires m <= n && forall i | 0 <= i < |txs| :: txs[i].payload.nonce <= n
    ensures LastNonce(txs, a, m) <= n
  {
    if txs != [] {
      LastNonceWithin(txs[1..], a, if txs[0].payload.from_ == a then txs[0].payload.nonce else m, n);
    }
  }

  lemma MinedNonceAt(s: State, miner: Bytes, b: Block, s': State, a: Bytes)
    requires Sequenced(s) && Extends(s, miner, b, s')
    ensures s.accounts.Keys <= s'.accounts.Keys
    ensures NonceAt(s'.accounts, a)
            == if a == COINBASE then NonceAt(s.accounts, a)
               else LastNonce(SortedPool(s.mempool), a, NonceAt(s.accounts, a))
  {
    hide Sequenced, BuiltFrom, BlockHash, LeastNonce, SortedPool, Settle, LastNonce;
    PooledSenders(s);
    SettleNonce(s.accounts, SortedPool(s.mempool), a);
  }

  lemma MinedNonceWithin(s: State, a: Bytes, n: nat)
    requires NoncesWithin(s, n)
    requires forall i | 0 <= i < |SortedPool(s.mempool)| :: SortedPool(s.mempool)[i].payload.nonce <= n
    ensures LastNonce(SortedPool(s.mempool), a, NonceAt(s.accounts, a)) <= n
    ensures NonceAt(s.accounts, a) + PendingNonceAt(s.accounts, a) <= n
  {
    LastNonceWithin(SortedPool(s.mempool), a, NonceAt(s.accounts, a), n);
  }

  lemma PooledNoncesWithin(s: State, n: nat)
    requires Sequenced(s) && NoncesWithin(s, n)
    ensures forall i | 0 <= i < |SortedPool(s.mempool)| :: SortedPool(s.mempool)[i].payload.nonce <= n
  {
    hide Admitted, CountedAt;
    var txs := SortedPool(s.mempool);
    SortedPoolLists(s.mempool);
    forall i | 0 <= i < |txs|
      ensures txs[i].payload.nonce <= n
    {
      assert txs[i] in txs;
    }
  }
}
