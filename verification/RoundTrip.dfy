/** Mining a chain and importing it (src/lib.rs:622-805 against 917-1048). */
module RoundTrip {
  import opened Machine
  import opened Fee
  import opened Crypto
  import opened Transaction
  import opened Order
  import opened Ledger
  import opened Settlement
  import opened Reservation
  import opened RewardDecay
  import opened Runs
  import opened NonceHistory
  import opened Validation
  import opened Agreement
  import opened Replay

  /** The round trip. Take any run from an empty node, with any seeds and drops, in which every credit fits, and any node
      of the same difficulty with a shorter chain. Importing the run's chain there succeeds if and only if the
      difficulty fits 32 bits, no block was mined over a gap in some sender's pending nonces, and every mined transaction
      that names a fee comes from an address, not the coinbase address, that the chain had credited before; which check
      fails otherwise is settled too. On success the node has what `Rebuilt` says, and its own mempool untouched. */
  lemma MineImportRoundTrip(d: u64, es: seq<Event>, node: State)
    requires Admissible(d, es)
    requires NoIdCollisions(Run(FreshState(d), es).chain) && NoChecksumCollisions(Run(FreshState(d), es).chain)
    requires node.difficulty == d && |node.chain| < |Run(FreshState(d), es).chain|
    ensures var s := Run(FreshState(d), es); var r := Import(node, s.chain);
      && (r.Ok? <==> d < TWO32 && GapFreeMines(FreshState(d), es) && FeesCounted(s.chain))
      && (r.Err? ==> r == Err(if d < TWO32 && GapFreeMines(FreshState(d), es) then ChecksumMismatch else InvalidChain))
      && (r.Ok? ==> Rebuilt(d, es, r.value) && r.value.mempool == node.mempool && r.value.difficulty == node.difficulty)
  {
    ReplayLeavesMempool(Cleared(node), Run(FreshState(d), es).chain);
    assert Uninterrupted(d, es);
    hide Admissible, Uninterrupted, GapFreeMines, Run, Rebuilt, FeesCounted, NoChecksumCollisions, NoIdCollisions,
      ValidChain, ReplayChain;
    AgreementIsExact(d, es);
    ReplayRun(d, es, node);
  }

  /** With every `mine_block` successful the block rewards are the miner's too. */
  lemma RewardsAgree(d: u64, es: seq<Event>, r: State, t: Token)
    requires Rebuilt(d, es, r) && MinesSucceed(FreshState(d), es)
    ensures Reward(r, t) == Reward(Run(FreshState(d), es), t)
  {
    EmissionStaysBounded(d, es, t);
  }

  /** A balance is rebuilt if and only if the address was seeded with nothing or some debit emptied it. */
  lemma BalancesAgreeIff(d: u64, es: seq<Event>, r: State, a: Bytes, t: Token)
    requires Rebuilt(d, es, r)
    ensures BalAt(r.accounts, a, t) == BalAt(Run(FreshState(d), es).accounts, a, t)
            <==> SeedAt(FreshState(d), es, a, t) == 0 || 0 in RunDebits(FreshState(d), es, a, t)
  {
    hide Run, SameCounters, KnownAt, SeedAt, RunDebits;
    assert ShortAt(d, es, r, a, t);
    LowestIsZero(SeedAt(FreshState(d), es, a, t), RunDebits(FreshState(d), es, a, t));
  }

  lemma {:induction false} LastUnknownMined(keys: set<Bytes>, txs: seq<SignedTransaction>, a: Bytes, known: bool)
    requires !LastKnown(keys, txs, a, known)
    ensures !known || (a != COINBASE && NoncesOf(txs, a) != [])
    decreases |txs|
  {
    if txs != [] {
      LastUnknownMined(keys + {txs[0].payload.to}, txs[1..], a,
                       if txs[0].payload.from_ == a != COINBASE then a in keys else known);
    }
  }

  lemma {:induction false} UnknownMined(chain: seq<Block>, a: Bytes)
    requires !ChainKnown(chain, a)
    ensures a != COINBASE && ChainNonces(chain, a) != []
  {
    LastUnknownMined(CreditedBy(Init(chain)), Body(Last(chain)), a, ChainKnown(Init(chain), a));
    if !ChainKnown(Init(chain), a) {
      UnknownMined(Init(chain), a);
    }
  }

  /** A nonce is rebuilt if and only if the address has no transaction on the chain, or had been credited by it before
      its last one. */
  lemma NoncesAgreeIff(d: u64, es: seq<Event>, r: State, a: Bytes)
    requires Uninterrupted(d, es) && Rebuilt(d, es, r)
    ensures NonceAt(r.accounts, a) == NonceAt(Run(FreshState(d), es).accounts, a)
            <==> ChainKnown(Run(FreshState(d), es).chain, a)
  {
    hide Run, SameCounters, ShortAt, Uninterrupted, ChainKnown;
    assert KnownAt(d, es, r, a);
    var s := Run(FreshState(d), es);
    if !ChainKnown(s.chain, a) {
      UnknownMined(s.chain, a);
      MinedNoncesIncrease(d, es, a);
      assert 0 < ChainNonces(s.chain, a)[0] <= NonceAt(s.accounts, a);
    }
  }

  /** Every run with tail drops, at a 32-bit difficulty and with its fees counted, imports. */
  lemma TailDropRunsImport(d: u64, es: seq<Event>, node: State)
    requires Admissible(d, es) && TailDrops(FreshState(d), es) && d < TWO32
    requires FeesCounted(Run(FreshState(d), es).chain)
    requires NoIdCollisions(Run(FreshState(d), es).chain) && NoChecksumCollisions(Run(FreshState(d), es).chain)
    requires node.difficulty == d && |node.chain| < |Run(FreshState(d), es).chain|
    ensures var s := Run(FreshState(d), es); var r := Import(node, s.chain); r.Ok? && Rebuilt(d, es, r.value)
  {
    assert Uninterrupted(d, es);
    hide Admissible, Uninterrupted, GapFreeMines, Run, Rebuilt, FeesCounted, NoChecksumCollisions, NoIdCollisions,
      Import, TailDrops;
    TailDropsMineGapFree(d, es);
    MineImportRoundTrip(d, es, node);
  }

  // ---- runs without seeds ----

  ghost predicate ZeroSeeds(es: seq<Event>) {
    forall e | e in es && e.AddAccountEvent? :: e.consumer == 0 && e.industrial == 0
  }

  ghost predicate GuardedEvents(es: seq<Event>) {
    forall e | e in es && e.SubmitEvent? :: Guarded(e.tx)
  }

  ghost predicate NoCoinbaseFees(txs: seq<SignedTransaction>) {
    forall j | 0 <= j < |txs| && txs[j].payload.from_ == COINBASE :: txs[j].payload.fee == 0
  }

  /** No transaction mined from the coinbase address names a fee. */
  ghost predicate NoCoinbaseFeesOn(chain: seq<Block>) {
    forall i | 0 <= i < |chain| :: NoCoinbaseFees(Body(chain[i]))
  }

  /** Who holds anything has been credited. */
  ghost predicate HoldersIn(accts: Accounts, keys: set<Bytes>) {
    forall a, t | BalAt(accts, a, t) > 0 :: a in keys
  }

  lemma SettleOneHolders(x: Accounts, keys: set<Bytes>, tx: SignedTransaction)
    requires HoldersIn(x, keys)
    ensures HoldersIn(SettleOne(x, tx), keys + {tx.payload.to})
  {
    hide Cost;
    forall a, t | BalAt(SettleOne(x, tx), a, t) > 0
      ensures a in keys + {tx.payload.to}
    {
      if a != tx.payload.to {
        assert BalAt(x, a, t) > 0;
      }
    }
  }

  lemma PayerIsKnown(x: Accounts, keys: set<Bytes>, tx: SignedTransaction)
    requires HoldersIn(x, keys) && Exact(x, tx) && Guarded(tx)
    requires Decompose(tx.payload.feeSelector, tx.payload.fee).Ok?
    ensures tx.payload.fee == 0 || Known(keys, tx) <==> (tx.payload.from_ == COINBASE ==> tx.payload.fee == 0)
  {
    var from_ := tx.payload.from_;
    FeeIsSplit(tx);
    if from_ != COINBASE && tx.payload.fee > 0 {
      hide Decompose, FeeOf;
      var t := if FeeOf(tx, Consumer) > 0 then Consumer else Industrial;
      assert Cost(tx, t) == Amount(tx, t) + FeeOf(tx, t) > 0;
      assert Cost(tx, t) <= Bal(x[from_], t);
      assert BalAt(x, from_, t) > 0;
    }
  }

  lemma {:induction false} HoldersPay(x: Accounts, keys: set<Bytes>, txs: seq<SignedTransaction>)
    requires HoldersIn(x, keys) && SettlesExactly(x, txs) && AllDecompose(txs)
    requires forall j | 0 <= j < |txs| :: Guarded(txs[j])
    ensures ListCounted(keys, txs) <==> NoCoinbaseFees(txs)
    ensures HoldersIn(Settle(x, txs), keys + Recipients(txs))
    decreases |txs|
  {
    hide Exact, Guarded, HoldersIn, SettleOne, Known;
    if txs == [] {
      assert keys + Recipients(txs) == keys;
    } else {
      PayerIsKnown(x, keys, txs[0]);
      SettleOneHolders(x, keys, txs[0]);
      HoldersPay(SettleOne(x, txs[0]), keys + {txs[0].payload.to}, txs[1..]);
      assert keys + Recipients(txs) == keys + {txs[0].payload.to} + Recipients(txs[1..]);
      assert forall j | 1 <= j < |txs| :: txs[j] == txs[1..][j - 1];
    }
  }

  ghost predicate HoldersCredited(s: State) {
    && HoldersIn(s.accounts, CreditedBy(s.chain))
    && (FeesCounted(s.chain) <==> NoCoinbaseFeesOn(s.chain))
  }

  lemma MinerHolds(x: Accounts, keys: set<Bytes>, a: Bytes, consumer: u64, industrial: u64)
    requires HoldersIn(x, keys)
    ensures HoldersIn(Credit(x, a, consumer, industrial), keys + {a})
  {
    forall b, t | BalAt(Credit(x, a, consumer, industrial), b, t) > 0
      ensures b in keys + {a}
    {
      if b != a {
        assert BalAt(x, b, t) > 0;
      }
    }
  }

  lemma NextBlockHolders(s: State, miner: Bytes)
    requires Inv(s) && Pushes(s, miner) && CreditsFit(s, miner) && HoldersCredited(s)
    requires forall j | 0 <= j < |SortedPool(s.mempool)| :: Guarded(SortedPool(s.mempool)[j])
    ensures HoldersCredited(MineState(s, miner))
  {
    var b := PushedBlock(s, miner);
    var txs := SortedPool(s.mempool);
    FittingStep(s, MineEvent(miner));
    AppendStep(s, MineEvent(miner));
    PushedShape(s, miner);
    InvSequences(s);
    PoolAdmitted(s);
    hide Inv, Pushes, CreditsFit, SortedPool, PushedBlock, MineState, BuiltFrom, BlockHash, LeastNonce, Settle,
      Guarded, Body, MinerOf, SettlesExactly, AllDecompose, Sequenced, Minted, ListFee, FeeChecksum, NoCoinbaseFees,
      HoldersIn, Credit, ListCounted, Recipients;
    MineConserves(s, miner, b, MineState(s, miner));
    HoldersPay(s.accounts, CreditedBy(s.chain), txs);
    MinerHolds(Settle(s.accounts, txs), CreditedBy(s.chain) + Recipients(txs), miner,
               b.coinbaseConsumer, b.coinbaseIndustrial);
    NoCoinbaseFeesAppend(s.chain, b);
  }

  lemma NoCoinbaseFeesAppend(chain: seq<Block>, b: Block)
    ensures NoCoinbaseFeesOn(chain + [b]) <==> NoCoinbaseFeesOn(chain) && NoCoinbaseFees(Body(b))
  {
    hide NoCoinbaseFees;
    var longer := chain + [b];
    assert longer[|chain|] == b && forall i | 0 <= i < |chain| :: longer[i] == chain[i];
  }

  lemma QuietHolders(s: State, e: Event)
    requires SearchEnds(s, e) && !Appends(s, e) && (e.AddAccountEvent? ==> e.consumer == 0 && e.industrial == 0)
    requires HoldersCredited(s)
    ensures HoldersCredited(Step(s, e))
  {
    QuietStep(s, e);
    hide SearchEnds, Appends, Step, FeesCounted, NoCoinbaseFeesOn, CreditedBy;
    forall a, t | BalAt(Step(s, e).accounts, a, t) > 0
      ensures a in CreditedBy(s.chain)
    {
      QuietBalance(s, e, a, t);
    }
  }

  /** Without seeds and past no overflow guard, an uncounted fee can only come from the coinbase address. */
  lemma {:induction false} HoldersAreCredited(d: u64, es: seq<Event>)
    requires Admissible(d, es) && ZeroSeeds(es) && GuardedEvents(es)
    ensures HoldersCredited(Run(FreshState(d), es))
  {
    if es != [] {
      var s := Run(FreshState(d), Init(es));
      PrefixEvents(es);
      HoldersAreCredited(d, Init(es));
      RunReserves(d, Init(es));
      SubmittedOnly(d, Init(es));
      PooledGuarded(s, Init(es));
      hide Inv, NoncesWithin, SearchEnds, CreditsFit, Step, HoldersCredited, AllSubmitted, Guarded;
      if Appends(s, Last(es)) {
        NextBlockHolders(s, Last(es).miner);
      } else {
        QuietHolders(s, Last(es));
      }
    }
  }

  lemma PooledGuarded(s: State, es: seq<Event>)
    requires Inv(s) && AllSubmitted(s, es) && GuardedEvents(es)
    ensures forall j | 0 <= j < |SortedPool(s.mempool)| :: Guarded(SortedPool(s.mempool)[j])
  {
    InvSequences(s);
    KeyedPool(s);
    hide Inv, Sequenced, SortedPool, Guarded;
    PooledWereSubmitted(s.mempool, es);
    forall j | 0 <= j < |SortedPool(s.mempool)|
      ensures Guarded(SortedPool(s.mempool)[j])
    {
      assert SubmitEvent(SortedPool(s.mempool)[j]) in es;
      assert Guarded(SubmitEvent(SortedPool(s.mempool)[j]).tx);
    }
  }

  lemma {:induction false} NothingSeeded(s: State, es: seq<Event>, a: Bytes, t: Token)
    requires ZeroSeeds(es)
    ensures SeedAt(s, es, a, t) == 0
  {
    if es != [] {
      PrefixEvents(es);
      NothingSeeded(s, Init(es), a, t);
    }
  }

  /** The round trip of a run whose accounts are created empty and whose sums stay within the overflow guard: its chain
      imports if and only if the difficulty fits 32 bits, no block was mined over a gap, and no transaction mined from the
      coinbase address names a fee; and then every balance at every address is the miner's. */
  lemma ZeroSeedRoundTrip(d: u64, es: seq<Event>, node: State)
    requires Admissible(d, es) && ZeroSeeds(es) && GuardedEvents(es)
    requires NoIdCollisions(Run(FreshState(d), es).chain) && NoChecksumCollisions(Run(FreshState(d), es).chain)
    requires node.difficulty == d && |node.chain| < |Run(FreshState(d), es).chain|
    ensures var s := Run(FreshState(d), es); var r := Import(node, s.chain);
      && (r.Ok? <==> d < TWO32 && GapFreeMines(FreshState(d), es) && NoCoinbaseFeesOn(s.chain))
      && (r.Ok? ==> Rebuilt(d, es, r.value)
                    && forall a, t :: BalAt(r.value.accounts, a, t) == BalAt(s.accounts, a, t))
  {
    hide Admissible, GapFreeMines, ZeroSeeds, GuardedEvents, Run, Rebuilt, FeesCounted, NoCoinbaseFeesOn,
      NoChecksumCollisions, NoIdCollisions, Import;
    HoldersAreCredited(d, es);
    MineImportRoundTrip(d, es, node);
    var s := Run(FreshState(d), es);
    if Import(node, s.chain).Ok? {
      forall a, t
        ensures BalAt(Import(node, s.chain).value.accounts, a, t) == BalAt(s.accounts, a, t)
      {
        NothingSeeded(FreshState(d), es, a, t);
        BalancesAgreeIff(d, es, Import(node, s.chain).value, a, t);
      }
    }
  }

  /** Where nonces are not rebuilt, a mined transaction can be admitted again: one that cost nothing, from a sender the
      chain never credited, once that sender has an account on the importing node. */
  lemma AdmittedAgainAfterImport(d: u64, a: Bytes, to: Bytes, miner: Bytes, tx: SignedTransaction, s: State, s1: State,
                                 chain: seq<Block>, node: State, r: State)
    requires tx.payload == RawTxPayload(a, to, 0, 0, 0, 0, 1, []) && VerifySignedTx(tx)
    requires a != to && a != miner && a != COINBASE
    requires s == FreshState(d).(accounts := map[a := NewAccount(a, 0, 0)]) && Submit(s, tx) == Ok(s1)
    requires Pushes(s1, miner) && chain == MineState(s1, miner).chain
    requires Import(node, chain) == Ok(r) && Key(a, 1) !in node.mempool
    ensures chain != [] && Body(Last(chain)) == [tx]
    ensures AddAccount(r, a, 0, 0).Ok? && Submit(AddAccount(r, a, 0, 0).value, tx).Ok?
  {
    hide Submit, VerifySignedTx, Import, Pushes, MineState, Body, MinerOf, AddAccount, Covers;
    AcceptedSubmit(s, tx);
    SingleBlock(s1, miner, tx);
    ImportedKeys(node, chain);
    OneRecipient(tx);
    UnseenAdmits(r, a, to, tx);
  }

  lemma OneRecipient(tx: SignedTransaction)
    ensures Recipients([tx]) == {tx.payload.to}
  {
    assert [tx][1..] == [];
  }

  /** A first block with one transaction. */
  lemma SingleBlock(s: State, miner: Bytes, tx: SignedTransaction)
    requires s.chain == [] && s.mempool == map[KeyOf(tx) := tx] && Pushes(s, miner)
    ensures var chain := MineState(s, miner).chain;
      chain != [] && chain == [Last(chain)] && Body(Last(chain)) == [tx] && MinerOf(Last(chain)) == miner
  {
    AppendStep(s, MineEvent(miner));
    PushedShape(s, miner);
    SinglePool(s.mempool, tx);
    hide Pushes, MineState, PushedBlock, SortedPool, Extends, Minted, ListFee, FeeChecksum, Body, MinerOf;
    var chain := MineState(s, miner).chain;
    assert Init(chain) == [];
  }

  lemma ImportedKeys(node: State, chain: seq<Block>)
    requires chain != [] && chain == [Last(chain)] && Import(node, chain).Ok?
    ensures var r := Import(node, chain).value;
      r.accounts.Keys == Recipients(Body(Last(chain))) + {MinerOf(Last(chain))} && r.mempool == node.mempool
  {
    hide ValidChain, ReplayChain, MinerOf, Body;
    ReplayLeavesMempool(Cleared(node), chain);
    ReplayedKeys(Cleared(node), Last(chain), Import(node, chain).value);
  }

  lemma ReplayedKeys(s: State, b: Block, r: State)
    requires s.accounts == map[] && ReplayChain(s, [b]) == Ok(r)
    ensures r.accounts.Keys == Recipients(Body(b)) + {MinerOf(b)}
  {
    hide ReplayBlock;
    assert Init([b]) == [] && Last([b]) == b;
    ReplayedBlock(s, b);
    ReplayKeys(s.accounts, Body(b));
    CreditKeys(ReplayTxs(s.accounts, Body(b)).value, MinerOf(b), b.coinbaseConsumer, b.coinbaseIndustrial);
  }

  lemma UnseenAdmits(r: State, a: Bytes, to: Bytes, tx: SignedTransaction)
    requires tx.payload == RawTxPayload(a, to, 0, 0, 0, 0, 1, []) && VerifySignedTx(tx)
    requires a !in r.accounts && Key(a, 1) !in r.mempool
    ensures AddAccount(r, a, 0, 0).Ok? && Submit(AddAccount(r, a, 0, 0).value, tx).Ok?
  {
    hide VerifySignedTx;
  }

  // ---- any node, any chain ----

  /** Every answer of `import_chain`. A chain that is no longer than the node's own is refused, and so is one that is
      not valid, with the node untouched; past that only a fee checksum or a miner's balance can fail; and a success
      leaves exactly the imported chain, longer than the one before, and the node's own mempool and difficulty. */
  lemma ImportAnswers(s: State, c: seq<Block>)
    ensures Import(s, c) == Err(NotLonger) <==> |c| <= |s.chain|
    ensures Import(s, c) == Err(InvalidChain) <==> |c| > |s.chain| && !ValidChain(c, s.difficulty % TWO32)
    ensures |c| <= |s.chain| || !ValidChain(c, s.difficulty % TWO32) ==> ImportState(s, c) == s
    ensures match Import(s, c)
            case Err(e) => e.NotLonger? || e.InvalidChain? || e.ChecksumMismatch? || e.MinerBalanceOverflow?
            case Ok(r) =>
              && r == ImportState(s, c)
              && r.chain == c && |r.chain| > |s.chain|
              && r.mempool == s.mempool && r.difficulty == s.difficulty
  {
    hide ValidChain, ReplayChain, ChainReached;
    if |c| > |s.chain| && ValidChain(c, s.difficulty % TWO32) {
      ValidChainReplayErrors(Cleared(s), c, s.difficulty % TWO32);
      ReachedOnSuccess(s, c);
      var k := StoppedAt(Cleared(s), c);
      assert c[..|c|] == c;
    }
  }

  /** Where a replay stops: before its first failing block, or at the end. */
  lemma {:induction false} StoppedAt(s: State, blocks: seq<Block>) returns (k: nat)
    ensures k <= |blocks| && (k == |blocks| <==> ReplayChain(s, blocks).Ok?)
    ensures var r := ChainReached(s, blocks);
      && r.chain == s.chain + blocks[..k] && r.mempool == s.mempool && r.difficulty == s.difficulty
      && r.rewardConsumer == Decayed(s.rewardConsumer, k) && r.rewardIndustrial == Decayed(s.rewardIndustrial, k)
    ensures ReplayChain(s, blocks).Ok? ==> ReplayChain(s, blocks).value == ChainReached(s, blocks)
  {
    hide ReplayBlock, BlockReached, Decay;
    if blocks == [] {
      k := 0;
    } else {
      k := StoppedAt(s, Init(blocks));
      if ReplayChain(s, Init(blocks)).Ok? {
        ReachedBlock(ReplayChain(s, Init(blocks)).value, Last(blocks));
        if ReplayChain(s, blocks).Ok? {
          k := k + 1;
          assert blocks[..k] == Init(blocks) + [Last(blocks)] && Init(blocks)[..k - 1] == Init(blocks);
        }
      }
    }
  }

  lemma ReachedBlock(s: State, b: Block)
    ensures var r := BlockReached(s, b);
      && r.mempool == s.mempool && r.difficulty == s.difficulty
      && if ReplayBlock(s, b).Ok? then
           && ReplayBlock(s, b).value == r && r.chain == s.chain + [b]
           && r.rewardConsumer == Decay(s.rewardConsumer) && r.rewardIndustrial == Decay(s.rewardIndustrial)
         else r.chain == s.chain && r.rewardConsumer == s.rewardConsumer && r.rewardIndustrial == s.rewardIndustrial
  {
    hide ReplayTxs, ReplayFees, TxsReached, FeeChecksum, Credit, Body, MinerOf, BalAt, Decay;
  }

  lemma StoppedState(s: State, blocks: seq<Block>, k: nat)
    requires k < |blocks| && ReplayChain(s, blocks[..k]).Ok? && ReplayChain(s, blocks[..k + 1]).Err?
    ensures ChainReached(s, blocks) == BlockReached(ReplayChain(s, blocks[..k]).value, blocks[k])
    ensures var r := ReplayBlock(ReplayChain(s, blocks[..k]).value, blocks[k]);
      r.Err? && ReplayChain(s, blocks) == Err(r.error)
    decreases |blocks|
  {
    hide ReplayBlock, BlockReached;
    assert Init(blocks[..k + 1]) == blocks[..k] && Last(blocks[..k + 1]) == blocks[k];
    if k + 1 == |blocks| {
      assert blocks[..k + 1] == blocks && Init(blocks) == blocks[..k];
    } else {
      assert Init(blocks)[..k] == blocks[..k] && Init(blocks)[..k + 1] == blocks[..k + 1];
      StoppedState(s, Init(blocks), k);
    }
  }

  lemma {:induction false} ReplayStops(s: State, blocks: seq<Block>) returns (k: nat)
    requires ReplayChain(s, blocks).Err?
    ensures k < |blocks| && ReplayChain(s, blocks[..k]).Ok? && ReplayChain(s, blocks[..k + 1]).Err?
  {
    hide ReplayBlock;
    if ReplayChain(s, Init(blocks)).Ok? {
      k := |blocks| - 1;
      assert blocks[..k] == Init(blocks) && blocks[..k + 1] == blocks;
    } else {
      k := ReplayStops(s, Init(blocks));
      assert Init(blocks)[..k] == blocks[..k] && Init(blocks)[..k + 1] == blocks[..k + 1];
    }
  }

  /** A failing import, past its first checks, keeps the blocks before the failing one, replayed, and nothing of the
      node's own chain; and of the failing block every transaction, without the miner's pay on a wrong checksum, and
      otherwise with no more of it than fits. */
  lemma FailedImportLeaves(s: State, c: seq<Block>) returns (k: nat)
    requires |c| > |s.chain| && ValidChain(c, s.difficulty % TWO32) && Import(s, c).Err?
    ensures k < |c| && ReplayChain(Cleared(s), c[..k]).Ok?
    ensures var r := ImportState(s, c); var p := ReplayChain(Cleared(s), c[..k]).value;
      && r == p.(accounts := r.accounts)
      && r.chain == c[..k] && r.mempool == s.mempool && r.difficulty == s.difficulty
      && r.rewardConsumer == Decayed(60_000, k) && r.rewardIndustrial == Decayed(30_000, k)
      && var accts := TxsReached(p.accounts, Body(c[k])); var miner := MinerOf(c[k]);
         if Import(s, c) == Err(ChecksumMismatch) then r.accounts == accts
         else
           && r.accounts.Keys == accts.Keys + {miner}
           && (forall a | a in accts && a != miner :: r.accounts[a] == accts[a])
           && BalAt(r.accounts, miner, Industrial) == BalAt(accts, miner, Industrial)
           && BalAt(r.accounts, miner, Consumer) as int
              == BalAt(accts, miner, Consumer)
                 + (if BalAt(accts, miner, Consumer) + c[k].coinbaseConsumer < TWO64 then c[k].coinbaseConsumer else 0)
  {
    hide ValidChain, ReplayChain, ChainReached, ReplayBlock;
    ValidChainReplayErrors(Cleared(s), c, s.difficulty % TWO32);
    k := ReplayStops(Cleared(s), c);
    StoppedState(Cleared(s), c, k);
    var n := StoppedAt(Cleared(s), c[..k]);
    assert c[..k][..k] == c[..k];
    BlockStops(ReplayChain(Cleared(s), c[..k]).value, c[k]);
  }

  lemma BlockStops(s: State, b: Block)
    requires ReplayBlock(s, b) == Err(ChecksumMismatch) || ReplayBlock(s, b) == Err(MinerBalanceOverflow)
    ensures var r := BlockReached(s, b); var accts := TxsReached(s.accounts, Body(b)); var miner := MinerOf(b);
      && r == s.(accounts := r.accounts)
      && if ReplayBlock(s, b) == Err(ChecksumMismatch) then r.accounts == accts
         else
           && r.accounts.Keys == accts.Keys + {miner}
           && (forall a | a in accts && a != miner :: r.accounts[a] == accts[a])
           && BalAt(r.accounts, miner, Industrial) == BalAt(accts, miner, Industrial)
           && BalAt(r.accounts, miner, Consumer) as int
              == BalAt(accts, miner, Consumer)
                 + (if BalAt(accts, miner, Consumer) + b.coinbaseConsumer < TWO64 then b.coinbaseConsumer else 0)
  {
    hide ReplayBlock, TxsReached, Body, MinerOf;
  }
}
