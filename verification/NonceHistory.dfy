/** Replay safety: the nonces a sender's transactions carry along the chain (src/lib.rs:536-541, 568, 742). */
module NonceHistory {
  import opened Machine
  import opened Fee
  import opened Transaction
  import opened Order
  import opened Ledger
  import opened Settlement
  import opened Reservation
  import opened Runs

  /** The nonces of a sender's transactions, in list order. */
  ghost function NoncesOf(txs: seq<SignedTransaction>, a: Bytes): seq<u64> {
    if txs == [] then []
    else (if txs[0].payload.from_ == a then [txs[0].payload.nonce] else []) + NoncesOf(txs[1..], a)
  }

  /** The same along a chain. */
  ghost function ChainNonces(chain: seq<Block>, a: Bytes): seq<u64> {
    if chain == [] then [] else ChainNonces(Init(chain), a) + NoncesOf(Body(Last(chain)), a)
  }

  ghost predicate Increasing(xs: seq<u64>) {
    forall i, j | 0 <= i < j < |xs| :: xs[i] < xs[j]
  }

  ghost predicate Between(xs: seq<u64>, lo: nat, hi: nat) {
    forall i | 0 <= i < |xs| :: lo < xs[i] <= hi
  }

  lemma {:induction false} NoncesOfCount(txs: seq<SignedTransaction>, a: Bytes, n: u64)
    ensures |NoncesOf(txs, a)| == ListCount(txs, a)
    ensures LastNonce(txs, a, n) == if NoncesOf(txs, a) == [] then n else Last(NoncesOf(txs, a))
  {
    if txs != [] {
      NoncesOfCount(txs[1..], a, if txs[0].payload.from_ == a then txs[0].payload.nonce else n);
    }
  }

  lemma {:induction false} NoncesOfMembers(txs: seq<SignedTransaction>, a: Bytes, x: u64)
    ensures x in NoncesOf(txs, a) <==> exists i :: 0 <= i < |txs| && KeyOf(txs[i]) == Key(a, x)
  {
    if txs != [] {
      NoncesOfMembers(txs[1..], a, x);
      if x in NoncesOf(txs[1..], a) {
        var i :| 0 <= i < |txs[1..]| && KeyOf(txs[1..][i]) == Key(a, x);
        assert KeyOf(txs[i + 1]) == Key(a, x);
      }
      if i :| 0 <= i < |txs| && KeyOf(txs[i]) == Key(a, x) {
        if i > 0 {
          assert KeyOf(txs[1..][i - 1]) == Key(a, x);
        }
      }
    }
  }

  lemma {:induction false} SortedNoncesIncrease(txs: seq<SignedTransaction>, a: Bytes)
    requires StrictlySorted(txs)
    ensures Increasing(NoncesOf(txs, a))
  {
    if txs != [] {
      var rest := NoncesOf(txs[1..], a);
      SortedNoncesIncrease(txs[1..], a);
      if txs[0].payload.from_ == a {
        LessTotal(a, a);
        forall i | 0 <= i < |rest|
          ensures txs[0].payload.nonce < rest[i]
        {
          NoncesOfMembers(txs[1..], a, rest[i]);
          var j :| 0 <= j < |txs[1..]| && KeyOf(txs[1..][j]) == Key(a, rest[i]);
          assert KeyLess(KeyOf(txs[0]), KeyOf(txs[j + 1]));
        }
      }
    }
  }

  lemma PooledNonces(pool: Pool, a: Bytes, x: u64)
    requires Keyed(pool)
    ensures x in NoncesOf(SortedPool(pool), a) <==> Key(a, x) in pool
  {
    var txs := SortedPool(pool);
    NoncesOfMembers(txs, a, x);
    SortedPoolLists(pool);
    if Key(a, x) in pool {
      assert pool[Key(a, x)] in txs;
      var i :| 0 <= i < |txs| && txs[i] == pool[Key(a, x)];
      assert KeyOf(txs[i]) == Key(a, x);
    }
    if i :| 0 <= i < |txs| && KeyOf(txs[i]) == Key(a, x) {
      assert txs[i] in txs;
    }
  }

  /** The block about to be mined: one sender's nonces rise, all above the account's. */
  lemma PoolNoncesRise(s: State, a: Bytes, hi: nat)
    requires Sequenced(s) && a != COINBASE
    requires forall k | k in s.mempool && k.sender == a :: k.nonce <= hi
    ensures var xs := NoncesOf(SortedPool(s.mempool), a);
      Increasing(xs) && Between(xs, NonceAt(s.accounts, a), hi)
  {
    hide Admitted;
    var xs := NoncesOf(SortedPool(s.mempool), a);
    SortedPoolSorted(s.mempool);
    SortedNoncesIncrease(SortedPool(s.mempool), a);
    forall i | 0 <= i < |xs|
      ensures NonceAt(s.accounts, a) < xs[i] <= hi
    {
      PooledNonces(s.mempool, a, xs[i]);
      assert Key(a, xs[i]) in s.mempool;
      assert CountedAt(s.accounts[a], s.mempool, a);
    }
  }

  // ---- any drops ----

  lemma QuietStepKeepsNonce(s: State, e: Event, a: Bytes)
    requires SearchEnds(s, e) && !Appends(s, e)
    ensures NonceAt(Step(s, e).accounts, a) == NonceAt(s.accounts, a)
  {
    QuietStep(s, e);
    if e.MineEvent? {
      hide Step;
    }
  }

  lemma AppendRising(xs: seq<u64>, ys: seq<u64>, mid: nat, hi: nat)
    requires Increasing(xs) && Between(xs, 0, mid) && Increasing(ys) && Between(ys, mid, hi) && mid <= hi
    ensures Increasing(xs + ys) && Between(xs + ys, 0, hi)
  {
  }

  /** With drops of any pending transaction, a sender's nonces strictly increase along the chain and never pass
      the account's: no (sender, nonce) is ever mined twice. */
  lemma {:induction false} MinedNoncesIncrease(d: u64, es: seq<Event>, a: Bytes)
    requires Uninterrupted(d, es) && a != COINBASE
    ensures var s := Run(FreshState(d), es);
      Increasing(ChainNonces(s.chain, a)) && Between(ChainNonces(s.chain, a), 0, NonceAt(s.accounts, a))
  {
    if es != [] {
      hide Inv, NoncesWithin, SearchEnds, Appends, Step, Increasing, Between;
      var s := Run(FreshState(d), Init(es));
      RunReserves(d, Init(es));
      InvSequences(s);
      MinedNoncesIncrease(d, Init(es), a);
      if Appends(s, Last(es)) {
        NextBlockRises(s, Last(es), a);
      } else {
        QuietStep(s, Last(es));
        QuietStepKeepsNonce(s, Last(es), a);
      }
    }
  }

  lemma NextBlockNonces(s: State, e: Event, a: Bytes)
    requires Appends(s, e)
    ensures ChainNonces(Step(s, e).chain, a) == ChainNonces(s.chain, a) + NoncesOf(SortedPool(s.mempool), a)
  {
    AppendStep(s, e);
    hide Appends, Step, Extends, SortedPool, PushedBlock, NoncesOf;
  }

  lemma NextBlockRises(s: State, e: Event, a: Bytes)
    requires Sequenced(s) && Appends(s, e) && a != COINBASE
    requires Increasing(ChainNonces(s.chain, a)) && Between(ChainNonces(s.chain, a), 0, NonceAt(s.accounts, a))
    ensures var s' := Step(s, e);
      Increasing(ChainNonces(s'.chain, a)) && Between(ChainNonces(s'.chain, a), 0, NonceAt(s'.accounts, a))
  {
    AppendStep(s, e);
    NextBlockNonces(s, e, a);
    hide Sequenced, Appends, Step, Extends, SortedPool, PushedBlock, NonceAt, NoncesOf;
    MineRaisesNonce(s, e.miner, PushedBlock(s, e.miner), Step(s, e), a);
    AppendRising(ChainNonces(s.chain, a), NoncesOf(SortedPool(s.mempool), a), NonceAt(s.accounts, a),
                 NonceAt(Step(s, e).accounts, a));
  }

  lemma MineRaisesNonce(s: State, miner: Bytes, b: Block, s': State, a: Bytes)
    requires Sequenced(s) && Extends(s, miner, b, s') && a != COINBASE
    ensures var xs := NoncesOf(SortedPool(s.mempool), a);
      && Increasing(xs)
      && Between(xs, NonceAt(s.accounts, a), NonceAt(s'.accounts, a))
      && NonceAt(s'.accounts, a) == if xs == [] then NonceAt(s.accounts, a) else Last(xs)
  {
    hide Sequenced, Extends, SortedPool;
    var xs := NoncesOf(SortedPool(s.mempool), a);
    MinedNonceAt(s, miner, b, s', a);
    NoncesOfCount(SortedPool(s.mempool), a, NonceAt(s.accounts, a));
    PoolNoncesRise(s, a, TWO64);
    assert xs != [] ==> xs[|xs| - 1] == Last(xs);
  }

  /** The coinbase address is the exception: its account's nonce never moves, so after a drop below the top the nonce
      that was mined last is admitted, and mined, again. */
  lemma CoinbaseNonceReused(s0: State, s1: State, s2: State, s3: State, tx1: SignedTransaction, tx2: SignedTransaction,
                            miner: Bytes, d: u64)
    requires tx1.payload == RawTxPayload(COINBASE, miner, 0, 0, 0, 0, 1, []) && VerifySignedTx(tx1)
    requires tx2.payload == RawTxPayload(COINBASE, miner, 0, 0, 0, 0, 2, []) && VerifySignedTx(tx2)
    requires s0 == FreshState(d).(accounts := map[COINBASE := NewAccount(COINBASE, 0, 0)])
    requires Submit(s0, tx1) == Ok(s1) && Submit(s1, tx2) == Ok(s2) && Drop(s2, COINBASE, 1) == Ok(s3)
    requires Pushes(s3, miner)
    ensures var s4 := MineState(s3, miner);
      && s4.chain != [] && tx2 in Body(Last(s4.chain))
      && Submit(s4, tx2).Ok?
  {
    CoinbaseDropped(s0, s1, s2, s3, tx1, tx2, miner, d);
    hide Submit, Drop, VerifySignedTx, MineState, Pushes, Sequenced;
    MinesSecondAgain(s3, tx2, miner);
  }

  lemma MinesSecondAgain(s: State, tx: SignedTransaction, miner: Bytes)
    requires Sequenced(s) && Pushes(s, miner) && VerifySignedTx(tx)
    requires tx.payload == RawTxPayload(COINBASE, miner, 0, 0, 0, 0, 2, [])
    requires s.mempool == map[Key(COINBASE, 2) := tx]
    requires COINBASE in s.accounts && s.accounts[COINBASE].nonce == 0 && s.accounts[COINBASE].pendingNonce == 1
    ensures var s' := MineState(s, miner); s'.chain != [] && tx in Body(Last(s'.chain)) && Submit(s', tx).Ok?
  {
    AppendStep(s, MineEvent(miner));
    assert Cost(tx, Consumer) == 0 == Cost(tx, Industrial);
    hide Submit, VerifySignedTx, MineState, Pushes, Extends, Sequenced, SortedPool, Cost, PushedBlock;
    assert tx in SortedPool(s.mempool) by {
      KeyedPool(s);
      SortedPoolLists(s.mempool);
      assert s.mempool[Key(COINBASE, 2)] == tx;
    }
    MinedPendingNonce(s, miner, PushedBlock(s, miner), MineState(s, miner), COINBASE);
    MinedNonceAt(s, miner, PushedBlock(s, miner), MineState(s, miner), COINBASE);
    ReadmitsSecond(MineState(s, miner), tx);
  }

  lemma ReadmitsSecond(s: State, tx: SignedTransaction)
    requires tx.payload.from_ == COINBASE && tx.payload.nonce == 2 && VerifySignedTx(tx)
    requires Decompose(tx.payload.feeSelector, tx.payload.fee).Ok? && Cost(tx, Consumer) == 0 == Cost(tx, Industrial)
    requires s.mempool == map[] && COINBASE in s.accounts
    requires s.accounts[COINBASE].nonce == 0 && s.accounts[COINBASE].pendingNonce == 1
    ensures Submit(s, tx).Ok?
  {
    hide VerifySignedTx, Cost;
  }

  lemma CoinbaseDropped(s0: State, s1: State, s2: State, s3: State, tx1: SignedTransaction, tx2: SignedTransaction,
                        miner: Bytes, d: u64)
    requires tx1.payload == RawTxPayload(COINBASE, miner, 0, 0, 0, 0, 1, [])
    requires tx2.payload == RawTxPayload(COINBASE, miner, 0, 0, 0, 0, 2, [])
    requires s0 == FreshState(d).(accounts := map[COINBASE := NewAccount(COINBASE, 0, 0)])
    requires Submit(s0, tx1) == Ok(s1) && Submit(s1, tx2) == Ok(s2) && Drop(s2, COINBASE, 1) == Ok(s3)
    ensures s3 == s0.(accounts := map[COINBASE := NewAccount(COINBASE, 0, 0).(pendingNonce := 1)],
                      mempool := map[Key(COINBASE, 2) := tx2])
    ensures VerifySignedTx(tx2) ==> Sequenced(s3)
  {
    hide VerifySignedTx;
    assert s3.mempool == map[Key(COINBASE, 2) := tx2];
    assert s3.accounts == map[COINBASE := NewAccount(COINBASE, 0, 0).(pendingNonce := 1)];
  }

  // ---- tail drops ----

  /** Only a sender's highest pending nonce is dropped. */
  ghost predicate TailDrops(s: State, es: seq<Event>) {
    es == [] || (TailDrops(s, Init(es)) && TailDrop(Run(s, Init(es)), Last(es)))
  }

  ghost predicate TailDrop(s: State, e: Event) {
    e.DropEvent? && Key(e.sender, e.nonce) in s.mempool
    ==> forall k | k in s.mempool && k.sender == e.sender :: k.nonce <= e.nonce
  }

  /** How many of an address's nonces the chain has used up: for the coinbase address, whose account's nonce never
      moves, as many as are mined. */
  ghost function Floor(s: State, a: Bytes): nat {
    if a == COINBASE then ChainCount(s.chain, a) else NonceAt(s.accounts, a)
  }

  /** The highest nonce that admission has handed out and a tail drop has not taken back. */
  ghost function Ceiling(s: State, a: Bytes): nat {
    NonceAt(s.accounts, a) + PendingNonceAt(s.accounts, a)
  }

  /** Every pending nonce lies between them. */
  ghost predicate NoGaps(s: State) {
    forall k | k in s.mempool :: NoGapAt(s, k)
  }

  ghost predicate NoGapAt(s: State, k: Key) {
    Floor(s, k.sender) < k.nonce <= Ceiling(s, k.sender)
  }

  /** As many nonces as are pending lie between them. */
  lemma PendingBetween(s: State, a: Bytes)
    requires Sequenced(s) && (a == COINBASE ==> CarriesCount(s))
    ensures Floor(s, a) + |PoolKeys(s.mempool, a)| == Ceiling(s, a)
  {
    hide Admitted;
    if a != COINBASE {
      if a in s.accounts {
        assert CountedAt(s.accounts[a], s.mempool, a);
      } else {
        EmptyPool(s.mempool, a);
      }
    }
  }

  lemma SubmitNoGaps(s: State, tx: SignedTransaction, n: nat)
    requires Submit(s, tx).Ok? && Sequenced(s) && CarriesCount(s)
    requires NoncesWithin(s, n) && n + 1 < TWO64 && NoGaps(s)
    ensures NoGaps(Submit(s, tx).value)
  {
    hide Submit, VerifySignedTx, Covers, Sequenced, CarriesCount, ChainCount, Cost, Decompose, PoolKeys;
    AcceptedSubmit(s, tx);
    PendingBetween(s, tx.payload.from_);
    var s' := Submit(s, tx).value;
    forall k | k in s'.mempool
      ensures NoGapAt(s', k)
    {
      if k != KeyOf(tx) {
        assert NoGapAt(s, k);
      }
    }
  }

  lemma DropNoGapAt(s: State, k: Key, k': Key)
    requires k in s.mempool && k.sender in s.accounts && k' in s.mempool && k' != k && NoGapAt(s, k) && NoGapAt(s, k')
    requires s.accounts[k.sender].pendingNonce > 0 && (k'.sender == k.sender ==> k'.nonce <= k.nonce)
    ensures NoGapAt(Removed(s, k), k')
  {
    hide Cost, ChainCount;
    if k'.sender == k.sender {
      SameSenderKeys(k', k);
    }
  }

  lemma DropNoGaps(s: State, sender: Bytes, nonce: u64)
    requires Key(sender, nonce) in s.mempool && TailDrop(s, DropEvent(sender, nonce))
    requires Sequenced(s) && CarriesCount(s) && NoGaps(s)
    ensures NoGaps(Drop(s, sender, nonce).value)
  {
    var k := Key(sender, nonce);
    AcceptedDrop(s, sender, nonce);
    PendingBetween(s, sender);
    CountRemove(s.mempool, k, sender);
    assert NoGapAt(s, k);
    hide Drop, Sequenced, CarriesCount, ChainCount, NoGapAt, Release, PoolKeys;
    forall k' | k' in s.mempool && k' != k
      ensures NoGapAt(Removed(s, k), k')
    {
      PendingAtLeastOne(s, k);
      DropNoGapAt(s, k, k');
    }
  }

  lemma PendingAtLeastOne(s: State, k: Key)
    requires Sequenced(s) && CarriesCount(s) && k in s.mempool
    ensures k.sender in s.accounts && s.accounts[k.sender].pendingNonce > 0
  {
    hide Admitted;
    assert k in PoolKeys(s.mempool, k.sender);
    if k.sender != COINBASE {
      assert CountedAt(s.accounts[k.sender], s.mempool, k.sender);
    }
  }

  lemma StepNoGaps(s: State, e: Event, n: nat)
    requires SearchEnds(s, e) && TailDrop(s, e)
    requires Sequenced(s) && CarriesCount(s) && NoncesWithin(s, n) && n + 1 < TWO64 && NoGaps(s)
    ensures NoGaps(Step(s, e))
  {
    hide Sequenced, CarriesCount, NoncesWithin, SearchEnds, Appends;
    match e
    case AddAccountEvent(a, _, _) =>
      if AddAccount(s, a, e.consumer, e.industrial).Ok? {
        AddAccountNoGaps(s, e);
      }
    case SubmitEvent(tx) =>
      if Submit(s, tx).Ok? {
        SubmitNoGaps(s, tx, n);
      }
    case DropEvent(sender, nonce) =>
      if Key(sender, nonce) in s.mempool {
        DropNoGaps(s, sender, nonce);
      }
    case MineEvent(_) =>
      MineNoGaps(s, e);
  }

  lemma MineNoGaps(s: State, e: Event)
    requires e.MineEvent? && SearchEnds(s, e) && NoGaps(s)
    ensures NoGaps(Step(s, e))
  {
    if Appends(s, e) {
      AppendStep(s, e);
      hide Step, Appends;
    } else {
      QuietStep(s, e);
      hide Step, Appends, SearchEnds;
      forall k | k in s.mempool
        ensures NoGapAt(Step(s, e), k)
      {
        assert NoGapAt(s, k);
      }
    }
  }

  lemma AddAccountNoGaps(s: State, e: Event)
    requires e.AddAccountEvent? && e.address !in s.accounts && NoGaps(s)
    ensures NoGaps(Step(s, e))
  {
    hide ChainCount;
    forall k | k in s.mempool
      ensures NoGapAt(Step(s, e), k)
    {
      assert NoGapAt(s, k);
    }
  }

  lemma {:induction false} TailDropsLeaveNoGaps(d: u64, es: seq<Event>)
    requires Uninterrupted(d, es) && TailDrops(FreshState(d), es)
    ensures NoGaps(Run(FreshState(d), es))
  {
    if es != [] {
      hide Inv, NoncesWithin, SearchEnds, Step, TailDrop, NoGaps, CarriesCount, CarriesFor;
      RunReserves(d, Init(es));
      InvSequences(Run(FreshState(d), Init(es)));
      CoinbaseReserves(d, Init(es));
      TailDropsLeaveNoGaps(d, Init(es));
      StepNoGaps(Run(FreshState(d), Init(es)), Last(es), |es| - 1);
    } else {
      hide CarriesCount;
    }
  }

  /** `lo + 1, lo + 2, …`, `n` of them. */
  ghost function Consecutive(lo: nat, n: nat): seq<nat> {
    seq(n, i => lo + 1 + i)
  }

  lemma {:induction false} IncreasingFills(xs: seq<u64>, lo: nat)
    requires Increasing(xs) && Between(xs, lo, lo + |xs|)
    ensures xs == Consecutive(lo, |xs|)
  {
    if xs != [] {
      var n := |xs| - 1;
      FillsBelow(xs, lo, n);
      IncreasingFills(xs[..n], lo);
      assert xs == xs[..n] + [xs[n]];
    }
  }

  lemma {:induction false} FillsBelow(xs: seq<u64>, lo: nat, n: nat)
    requires Increasing(xs) && Between(xs, lo, lo + |xs|) && n < |xs|
    ensures xs[n] >= lo + 1 + n
    ensures Between(xs[..n], lo, xs[n] - 1) && (n == |xs| - 1 ==> xs[n] == lo + |xs| && Between(xs[..n], lo, lo + n))
  {
    if n > 0 {
      FillsBelow(xs, lo, n - 1);
    }
  }

  lemma AppendConsecutive(m: nat, n: nat)
    ensures Consecutive(0, m) + Consecutive(m, n) == Consecutive(0, m + n)
  {
  }

  lemma ConsecutiveMembers(lo: nat, n: nat, x: nat)
    ensures x in Consecutive(lo, n) <==> lo < x <= lo + n
  {
    if lo < x <= lo + n {
      assert Consecutive(lo, n)[x - lo - 1] == x;
    }
  }

  lemma PendingNoncesInOrder(s: State, a: Bytes)
    requires Sequenced(s) && (a == COINBASE ==> CarriesCount(s)) && NoGaps(s)
    ensures NoncesOf(SortedPool(s.mempool), a) == Consecutive(Floor(s, a), |PoolKeys(s.mempool, a)|)
  {
    hide CountedAt, Admitted, CarriesCount, SortedPool;
    var xs := NoncesOf(SortedPool(s.mempool), a);
    PendingBetween(s, a);
    assert |xs| == |PoolKeys(s.mempool, a)| by {
      SortedPoolCount(s.mempool, a);
      NoncesOfCount(SortedPool(s.mempool), a, 0);
    }
    SortedPoolSorted(s.mempool);
    SortedNoncesIncrease(SortedPool(s.mempool), a);
    forall i | 0 <= i < |xs|
      ensures Floor(s, a) < xs[i] <= Ceiling(s, a)
    {
      PooledNonces(s.mempool, a, xs[i]);
      assert NoGapAt(s, Key(a, xs[i]));
    }
    IncreasingFills(xs, Floor(s, a));
  }

  /** With tail drops the mempool holds exactly the next nonces of each sender, one for each of its entries
      (INV-PENDING-001), and a mined block carries them in order. */
  lemma PendingNoncesAreNext(s: State, a: Bytes, n: u64)
    requires Sequenced(s) && (a == COINBASE ==> CarriesCount(s)) && NoGaps(s)
    ensures NoncesOf(SortedPool(s.mempool), a) == Consecutive(Floor(s, a), |PoolKeys(s.mempool, a)|)
    ensures Key(a, n) in s.mempool <==> Floor(s, a) < n <= Ceiling(s, a)
  {
    hide CountedAt, Admitted, CarriesCount;
    PendingNoncesInOrder(s, a);
    PendingBetween(s, a);
    PooledNonces(s.mempool, a, n);
    ConsecutiveMembers(Floor(s, a), |PoolKeys(s.mempool, a)|, n);
  }

  /** An appended block uses up the sender's pending nonces. */
  lemma MineRaisesFloor(s: State, e: Event, a: Bytes)
    requires Sequenced(s) && (a == COINBASE ==> CarriesCount(s)) && NoGaps(s) && Appends(s, e)
    ensures Floor(Step(s, e), a) == Floor(s, a) + |PoolKeys(s.mempool, a)|
  {
    AppendStep(s, e);
    hide Appends, Step, Extends, Sequenced, NoGaps, SortedPool, PushedBlock, Body;
    KeyedPool(s);
    SortedPoolCount(s.mempool, a);
    if a != COINBASE {
      var xs := NoncesOf(SortedPool(s.mempool), a);
      MineRaisesNonce(s, e.miner, PushedBlock(s, e.miner), Step(s, e), a);
      PendingNoncesInOrder(s, a);
    }
  }

  /** With tail drops an address's mined nonces are exactly 1, 2, …, as many as are used up: up to its account's nonce,
      and the coinbase address's too. */
  lemma {:induction false} MinedNoncesAreConsecutive(d: u64, es: seq<Event>, a: Bytes)
    requires Uninterrupted(d, es) && TailDrops(FreshState(d), es)
    ensures var s := Run(FreshState(d), es); ChainNonces(s.chain, a) == Consecutive(0, Floor(s, a))
  {
    if es != [] {
      var s := Run(FreshState(d), Init(es));
      MinedNoncesAreConsecutive(d, Init(es), a);
      RunReserves(d, Init(es));
      InvSequences(s);
      CoinbaseReserves(d, Init(es));
      TailDropsLeaveNoGaps(d, Init(es));
      hide Inv, NoncesWithin, SearchEnds, Step, TailDrop, NoGaps, CarriesCount, CarriesFor, Sequenced, Appends;
      if Appends(s, Last(es)) {
        NextBlockConsecutive(s, Last(es), a);
      } else {
        QuietStep(s, Last(es));
        QuietStepKeepsNonce(s, Last(es), a);
      }
    }
  }

  lemma NextBlockConsecutive(s: State, e: Event, a: Bytes)
    requires Sequenced(s) && CarriesCount(s) && NoGaps(s) && Appends(s, e)
    requires ChainNonces(s.chain, a) == Consecutive(0, Floor(s, a))
    ensures ChainNonces(Step(s, e).chain, a) == Consecutive(0, Floor(Step(s, e), a))
  {
    hide *;
    NextBlockNonces(s, e, a);
    MineRaisesFloor(s, e, a);
    PendingNoncesInOrder(s, a);
    AppendConsecutive(Floor(s, a), |PoolKeys(s.mempool, a)|);
  }
}
