/** Whole runs of a node: any interleaving of account creation, submission, dropping and mining. */
module Runs {
  import opened Machine
  import opened Transaction
  import opened Order
  import opened Ledger
  import opened Settlement
  import opened Reservation
  import opened RewardDecay

  datatype Event =
    | AddAccountEvent(address: Bytes, consumer: u64, industrial: u64)
    | SubmitEvent(tx: SignedTransaction)
    | DropEvent(sender: Bytes, nonce: u64)
    | MineEvent(miner: Bytes)

  ghost function OrElse<E>(r: Result<State, E>, s: State): State {
    match r case Ok(s') => s' case Err(_) => s
  }

  /** A call and the state it leaves, accepted or rejected. */
  ghost function Step(s: State, e: Event): State {
    match e
    case AddAccountEvent(a, c, i) => OrElse(AddAccount(s, a, c, i), s)
    case SubmitEvent(tx) => OrElse(Submit(s, tx), s)
    case DropEvent(sender, nonce) => OrElse(Drop(s, sender, nonce), s)
    case MineEvent(miner) => MineState(s, miner)
  }

  ghost function Run(s: State, es: seq<Event>): State {
    if es == [] then s else Step(Run(s, Init(es)), Last(es))
  }

  function Init<T>(es: seq<T>): seq<T>
    requires es != []
  {
    es[..|es| - 1]
  }

  function Last<T>(es: seq<T>): T
    requires es != []
  {
    es[|es| - 1]
  }

  // ---- what a run is measured by ----

  /** Tokens seeded by the account creations that went through. */
  ghost function Seeds(s: State, es: seq<Event>, t: Token): nat {
    if es == [] then 0 else Seeds(s, Init(es), t) + SeedOf(Run(s, Init(es)), Last(es), t)
  }

  ghost function SeedOf(s: State, e: Event, t: Token): nat {
    if e.AddAccountEvent? && e.address !in s.accounts then (if t.Consumer? then e.consumer else e.industrial) else 0
  }

  /** A block's transactions after the coinbase. */
  function Body(b: Block): seq<SignedTransaction> {
    if b.transactions == [] then [] else b.transactions[1..]
  }

  /** What the chain paid out without taking it from anybody. */
  ghost function ChainUnbacked(chain: seq<Block>, t: Token): nat {
    if chain == [] then 0 else ChainUnbacked(Init(chain), t) + ListUnbacked(Body(Last(chain)), t)
  }

  /** The cost, and the number, of a sender's transactions on the chain. */
  ghost function ChainCost(chain: seq<Block>, a: Bytes, t: Token): nat {
    if chain == [] then 0 else ChainCost(Init(chain), a, t) + ListCost(Body(Last(chain)), a, t)
  }

  ghost function ChainCount(chain: seq<Block>, a: Bytes): nat {
    if chain == [] then 0 else ChainCount(Init(chain), a) + ListCount(Body(Last(chain)), a)
  }

  ghost function MineCount(es: seq<Event>): nat {
    if es == [] then 0 else MineCount(Init(es)) + if Last(es).MineEvent? then 1 else 0
  }

  // ---- what results about runs assume ----

  /** The call appends a block. */
  ghost predicate Appends(s: State, e: Event) {
    e.MineEvent? && Pushes(s, e.miner)
  }

  /** A nonce search that starts ends with a block. */
  ghost predicate SearchEnds(s: State, e: Event) {
    e.MineEvent? ==> FeesOverflow(s) || Pushes(s, e.miner)
  }

  ghost predicate SearchesEnd(s: State, es: seq<Event>) {
    es == [] || (SearchesEnd(s, Init(es)) && SearchEnds(Run(s, Init(es)), Last(es)))
  }

  /** Runs from an empty node that no exhausted nonce search interrupts. Senders, amounts, drops, rejected calls and
      overflows are unrestricted. */
  ghost predicate Uninterrupted(d: u64, es: seq<Event>) {
    |es| < TWO64 && SearchesEnd(FreshState(d), es)
  }

  /** Every credit of every block mined fits the account it goes to. */
  ghost predicate SettlementsFit(s: State, es: seq<Event>) {
    es == [] || (SettlementsFit(s, Init(es)) && (Last(es).MineEvent? ==> CreditsFit(Run(s, Init(es)), Last(es).miner)))
  }

  /** The runs that results about balances are about. */
  ghost predicate Admissible(d: u64, es: seq<Event>) {
    Uninterrupted(d, es) && SettlementsFit(FreshState(d), es)
  }

  /** Every `mine_block` of the run returns a block. */
  ghost predicate MinesSucceed(s: State, es: seq<Event>) {
    es == [] || (MinesSucceed(s, Init(es))
                 && (Last(es).MineEvent? ==> MineOutcome(Run(s, Init(es)), Last(es).miner).Ok?))
  }

  // ---- one call ----

  lemma AppendStep(s: State, e: Event)
    requires Appends(s, e)
    ensures var s' := Step(s, e);
      && Extends(s, e.miner, PushedBlock(s, e.miner), s')
      && s'.chain != [] && Init(s'.chain) == s.chain && Last(s'.chain) == PushedBlock(s, e.miner)
      && Body(Last(s'.chain)) == SortedPool(s.mempool)
      && s'.mempool == map[] && s'.difficulty == s.difficulty
  {
    var b := PushedBlock(s, e.miner);
    PushedExtends(s, e.miner);
    assert b.transactions[1..] == SortedPool(s.mempool);
    assert Init(s.chain + [b]) == s.chain;
  }

  lemma QuietStep(s: State, e: Event)
    requires SearchEnds(s, e) && !Appends(s, e)
    ensures var s' := Step(s, e);
      && s'.chain == s.chain && s'.blockHeight == s.blockHeight && s'.difficulty == s.difficulty
      && s'.emissionConsumer == s.emissionConsumer && s'.emissionIndustrial == s.emissionIndustrial
      && (e.MineEvent? ==> s'.accounts == s.accounts && s'.mempool == s.mempool)
      && (!e.MineEvent? ==> s'.rewardConsumer == s.rewardConsumer && s'.rewardIndustrial == s.rewardIndustrial)
  {
    hide FirstNonce, SortedPool, VerifySignedTx;
    if e.MineEvent? {
      assert Candidate(s, e.miner).Err?;
    }
  }

  lemma StepKeepsChain(s: State, e: Event)
    requires !e.MineEvent?
    ensures var s' := Step(s, e);
      s' == s.(accounts := s'.accounts, mempool := s'.mempool)
  {
  }

  lemma PrefixEvents(es: seq<Event>)
    requires es != []
    ensures es == Init(es) + [Last(es)] && forall e :: e in es <==> e in Init(es) || e == Last(es)
  {
  }

  // ---- reservations, in every uninterrupted run ----

  lemma StepReserves(s: State, e: Event, n: nat)
    requires Inv(s) && NoncesWithin(s, n) && n + 1 < TWO64 && SearchEnds(s, e)
    ensures Inv(Step(s, e)) && NoncesWithin(Step(s, e), n + 1)
  {
    InvSequences(s);
    hide Inv, Sequenced, SearchEnds, Appends;
    match e
    case AddAccountEvent(a, c, i) =>
      if AddAccount(s, a, c, i).Ok? {
        AddAccountKeeps(s, a, c, i, n);
      }
    case SubmitEvent(tx) =>
      if Submit(s, tx).Ok? {
        SubmitKeeps(s, tx, n);
      }
    case DropEvent(sender, nonce) =>
      if Drop(s, sender, nonce).Ok? {
        DropKeeps(s, sender, nonce, n);
      }
    case MineEvent(miner) =>
      MineReserves(s, miner, n);
  }

  lemma MineReserves(s: State, miner: Bytes, n: nat)
    requires Inv(s) && NoncesWithin(s, n) && SearchEnds(s, MineEvent(miner))
    ensures Inv(Step(s, MineEvent(miner))) && NoncesWithin(Step(s, MineEvent(miner)), n)
  {
    InvSequences(s);
    if Appends(s, MineEvent(miner)) {
      hide Inv, Sequenced;
      PushedExtends(s, miner);
      MineKeeps(s, miner, PushedBlock(s, miner), MineState(s, miner), n);
    } else {
      QuietStep(s, MineEvent(miner));
      SameReservations(s, Step(s, MineEvent(miner)));
    }
  }

  ghost predicate Reserves(d: u64, es: seq<Event>) {
    var s := Run(FreshState(d), es);
    Inv(s) && NoncesWithin(s, |es|) && s.difficulty == d && |s.chain| <= |es|
  }

  /** The reservation invariant holds in every state of every uninterrupted run, also where sums wrap or the miner's
      balance overflows. */
  lemma {:induction false} RunReserves(d: u64, es: seq<Event>)
    requires Uninterrupted(d, es)
    ensures Reserves(d, es)
  {
    hide Inv, NoncesWithin, SearchEnds, Step;
    if es == [] {
      FreshReserves(d);
    } else {
      var s := Run(FreshState(d), Init(es));
      RunReserves(d, Init(es));
      StepReserves(s, Last(es), |es| - 1);
      StepLengths(s, Last(es));
    }
  }

  lemma FreshReserves(d: u64)
    ensures Inv(FreshState(d)) && NoncesWithin(FreshState(d), 0)
  {
  }

  lemma StepLengths(s: State, e: Event)
    requires SearchEnds(s, e)
    ensures Step(s, e).difficulty == s.difficulty
    ensures |Step(s, e).chain| == |s.chain| + if Appends(s, e) then 1 else 0
  {
    if Appends(s, e) {
      AppendStep(s, e);
    } else {
      QuietStep(s, e);
    }
  }

  // ---- the coinbase address ----

  /** The coinbase address's account keeps what its mined transactions reserved, for ever. */
  ghost predicate CarriesFor(s: State, t: Token) {
    PendAt(s.accounts, COINBASE, t) == PoolCost(s.mempool, COINBASE, t) + ChainCost(s.chain, COINBASE, t)
  }

  ghost predicate CarriesCount(s: State) {
    && PendingNonceAt(s.accounts, COINBASE) == |PoolKeys(s.mempool, COINBASE)| + ChainCount(s.chain, COINBASE)
    && NonceAt(s.accounts, COINBASE) == 0
  }

  ghost predicate CoinbaseCarries(s: State) {
    CarriesFor(s, Consumer) && CarriesFor(s, Industrial) && CarriesCount(s)
  }

  lemma {:induction false} CoinbaseReserves(d: u64, es: seq<Event>)
    requires Uninterrupted(d, es)
    ensures CoinbaseCarries(Run(FreshState(d), es))
  {
    hide Inv, NoncesWithin, SearchEnds, Appends, Step, CoinbaseCarries;
    if es == [] {
      FreshCarries(d);
    } else {
      var s := Run(FreshState(d), Init(es));
      CoinbaseReserves(d, Init(es));
      RunReserves(d, Init(es));
      InvSequences(s);
      StepCarries(s, Last(es), |es| - 1);
    }
  }

  lemma FreshCarries(d: u64)
    ensures CoinbaseCarries(FreshState(d))
  {
    EmptyPool(map[], COINBASE);
  }

  lemma StepCarries(s: State, e: Event, n: nat)
    requires Sequenced(s) && NoncesWithin(s, n) && n + 1 < TWO64 && SearchEnds(s, e) && CoinbaseCarries(s)
    ensures CoinbaseCarries(Step(s, e))
  {
    hide Sequenced, SearchEnds;
    match e
    case AddAccountEvent(_, _, _) =>
    case SubmitEvent(tx) =>
      if Submit(s, tx).Ok? {
        SubmitCarries(s, tx, n);
      }
    case DropEvent(sender, nonce) =>
      if Drop(s, sender, nonce).Ok? {
        DropCarries(s, sender, nonce);
      }
    case MineEvent(_) =>
      if Appends(s, e) {
        MineCarries(s, e);
      } else {
        QuietStep(s, e);
      }
  }

  lemma SubmitCarries(s: State, tx: SignedTransaction, n: nat)
    requires NoncesWithin(s, n) && n + 1 < TWO64 && CoinbaseCarries(s) && Submit(s, tx).Ok?
    ensures CoinbaseCarries(Submit(s, tx).value)
  {
    hide VerifySignedTx, Covers, ChainCost, ChainCount, PoolCost;
    AcceptedSubmit(s, tx);
    CostInsert(s.mempool, KeyOf(tx), tx, COINBASE, Consumer);
    CostInsert(s.mempool, KeyOf(tx), tx, COINBASE, Industrial);
    CountInsert(s.mempool, KeyOf(tx), tx, COINBASE);
    if tx.payload.from_ == COINBASE {
      ReserveIsExact(s.accounts[COINBASE], tx, Consumer);
      ReserveIsExact(s.accounts[COINBASE], tx, Industrial);
    }
  }

  lemma DropCarries(s: State, sender: Bytes, nonce: u64)
    requires Sequenced(s) && CoinbaseCarries(s) && Key(sender, nonce) in s.mempool
    ensures CoinbaseCarries(Drop(s, sender, nonce).value)
  {
    AcceptedDrop(s, sender, nonce);
    hide Sequenced, Drop, CarriesFor, CarriesCount;
    var k := Key(sender, nonce);
    ReleaseCarriesFor(s, k, Consumer);
    ReleaseCarriesFor(s, k, Industrial);
    ReleaseCarriesCount(s, k);
  }

  ghost function Removed(s: State, k: Key): State
    requires k in s.mempool && k.sender in s.accounts
  {
    s.(accounts := s.accounts[k.sender := Release(s.accounts[k.sender], s.mempool[k])], mempool := s.mempool - {k})
  }

  lemma ReleaseCarriesFor(s: State, k: Key, t: Token)
    requires k in s.mempool && k.sender in s.accounts && CarriesFor(s, t)
    ensures CarriesFor(Removed(s, k), t)
  {
    hide Cost, ChainCost, PoolCost;
    CostRemove(s.mempool, k, COINBASE, t);
  }

  lemma ReleaseCarriesCount(s: State, k: Key)
    requires k in s.mempool && k.sender in s.accounts && CarriesCount(s)
    ensures CarriesCount(Removed(s, k))
  {
    hide Cost, ChainCount, PoolKeys;
    CountRemove(s.mempool, k, COINBASE);
  }

  lemma MineCarries(s: State, e: Event)
    requires Sequenced(s) && CoinbaseCarries(s) && Appends(s, e)
    ensures CoinbaseCarries(Step(s, e))
  {
    hide Sequenced, Appends, Step, PendAt, PendingNonceAt, NonceAt;
    MineCarriesFor(s, e, Consumer);
    MineCarriesFor(s, e, Industrial);
    MineCarriesCount(s, e);
  }

  lemma MineCarriesFor(s: State, e: Event, t: Token)
    requires Sequenced(s) && CarriesFor(s, t) && Appends(s, e)
    ensures CarriesFor(Step(s, e), t)
  {
    AppendStep(s, e);
    KeyedPool(s);
    hide Sequenced, Settle, SortedPool, BuiltFrom, BlockHash, LeastNonce, Step, Appends, PoolCost, ListCost,
      PushedBlock, Body, Credited, Pend;
    CreditLeavesPend(s, e.miner, PushedBlock(s, e.miner), Step(s, e), t);
    SettlePend(s.accounts, SortedPool(s.mempool), COINBASE, t);
    SortedPoolCost(s.mempool, COINBASE, t);
    EmptyPool(map[], COINBASE);
  }

  lemma CreditLeavesPend(s: State, miner: Bytes, b: Block, s': State, t: Token)
    requires Extends(s, miner, b, s')
    ensures PendAt(s'.accounts, COINBASE, t) == PendAt(Settle(s.accounts, SortedPool(s.mempool)), COINBASE, t)
  {
    hide Settle, SortedPool, BuiltFrom, BlockHash, LeastNonce;
  }

  lemma MineCarriesCount(s: State, e: Event)
    requires Sequenced(s) && CarriesCount(s) && Appends(s, e)
    ensures CarriesCount(Step(s, e))
  {
    AppendStep(s, e);
    KeyedPool(s);
    MinedPendingNonce(s, e.miner, PushedBlock(s, e.miner), Step(s, e), COINBASE);
    MinedNonceAt(s, e.miner, PushedBlock(s, e.miner), Step(s, e), COINBASE);
    hide Sequenced, Extends, SortedPool, PushedBlock, Step, Appends, PendingNonceAt, NonceAt, ListCount;
    SortedPoolCount(s.mempool, COINBASE);
    EmptyPool(map[], COINBASE);
  }

  lemma KeyedPool(s: State)
    requires Sequenced(s)
    ensures Keyed(s.mempool)
  {
  }

  // ---- emission, in every run ----

  /** Emission from an empty node, whatever is called and however it fails: under 20 000 initial rewards, a hundredth of
      a percent of the maximum supply, so the supply clamp never fires. Rewards decay once a `mine_block` call, and
      that is once a block when every call returns one. */
  lemma {:induction false} EmissionStaysBounded(d: u64, es: seq<Event>, t: Token)
    ensures var s := Run(FreshState(d), es);
      && Emission(s, t) + 20_000 * Reward(s, t) <= EmissionBound(t) <= MAX_SUPPLY
      && Reward(s, t) == Decayed(InitialReward(t), MineCount(es))
      && Minted(s, t) == Decay(Reward(s, t))
      && (MinesSucceed(FreshState(d), es) ==> MineCount(es) == |s.chain|)
  {
    hide Step, MineOutcome, Decay;
    if es != [] {
      EmissionStaysBounded(d, Init(es), t);
      EmissionStep(Run(FreshState(d), Init(es)), Last(es), t);
      ChainGrows(Run(FreshState(d), Init(es)), Last(es));
    }
    PotentialFalls(Run(FreshState(d), es), t);
  }

  lemma EmissionStep(s: State, e: Event, t: Token)
    requires WithinPotential(s, t)
    ensures WithinPotential(Step(s, e), t)
    ensures Reward(Step(s, e), t) == if e.MineEvent? then Decay(Reward(s, t)) else Reward(s, t)
  {
    PotentialFalls(s, t);
    if e.MineEvent? {
      hide MineState, Minted, Decay;
      MinedEmission(s, e.miner, t);
    } else {
      StepKeepsChain(s, e);
    }
  }

  lemma MinedEmission(s: State, miner: Bytes, t: Token)
    ensures var s' := MineState(s, miner);
      && Reward(s', t) == Decay(Reward(s, t))
      && (Emission(s', t) == Emission(s, t) || Emission(s', t) == Add64(Emission(s, t), Minted(s, t)))
  {
    hide FirstNonce, SortedPool, Settle, Decay, Minted, BalAt, Credit;
  }

  lemma ChainGrows(s: State, e: Event)
    ensures e.MineEvent? && MineOutcome(s, e.miner).Ok? ==> |Step(s, e).chain| == |s.chain| + 1
    ensures !e.MineEvent? ==> Step(s, e).chain == s.chain
  {
    if e.MineEvent? {
      if MineOutcome(s, e.miner).Ok? {
        MinedBlock(s, e.miner);
      }
    } else {
      StepKeepsChain(s, e);
    }
  }

  // ---- conservation ----

  /** Balances are seeds, emission and unbacked payments, to the unit. */
  ghost predicate Conserved(d: u64, es: seq<Event>, t: Token) {
    var s := Run(FreshState(d), es);
    Total(s.accounts, t) == Seeds(FreshState(d), es, t) + Emission(s, t) + ChainUnbacked(s.chain, t)
  }

  ghost predicate RunInv(d: u64, es: seq<Event>) {
    && Reserves(d, es)
    && Conserved(d, es, Consumer) && Conserved(d, es, Industrial)
    && Run(FreshState(d), es).blockHeight == |Run(FreshState(d), es).chain|
  }

  lemma OtherStepKeepsTotal(s: State, e: Event, t: Token)
    requires !e.MineEvent?
    ensures Total(Step(s, e).accounts, t) == Total(s.accounts, t) + SeedOf(s, e, t)
  {
    match e
    case AddAccountEvent(a, c, i) =>
      TotalUpdate(s.accounts, a, NewAccount(a, c, i), t);
    case SubmitEvent(tx) =>
      if Submit(s, tx).Ok? {
        AcceptedSubmit(s, tx);
        MempoolOpsKeepTotals(s.accounts, tx.payload.from_, Reserve(s.accounts[tx.payload.from_], tx), t);
      }
    case DropEvent(sender, nonce) =>
      if Key(sender, nonce) in s.mempool && sender in s.accounts {
        MempoolOpsKeepTotals(s.accounts, sender, Release(s.accounts[sender], s.mempool[Key(sender, nonce)]), t);
      }
    case MineEvent(_) =>
  }

  lemma QuietStepKeepsTotal(s: State, e: Event, t: Token)
    requires SearchEnds(s, e) && !Appends(s, e)
    ensures Total(Step(s, e).accounts, t) == Total(s.accounts, t) + SeedOf(s, e, t)
  {
    QuietStep(s, e);
    if !e.MineEvent? {
      OtherStepKeepsTotal(s, e, t);
    }
  }

  /** A block whose credits fit is a success. */
  lemma FittingStep(s: State, e: Event)
    requires Appends(s, e) && CreditsFit(s, e.miner)
    ensures MineOutcome(s, e.miner) == Ok(PushedBlock(s, e.miner))
    ensures MinesTo(s, e.miner, PushedBlock(s, e.miner), Step(s, e))
  {
    FittingMineSucceeds(s, e.miner);
    MinedBlock(s, e.miner);
  }

  lemma MineStepConserves(s: State, e: Event, t: Token)
    requires Inv(s) && WithinPotential(s, t) && Appends(s, e) && CreditsFit(s, e.miner)
    ensures Total(Step(s, e).accounts, t) == Total(s.accounts, t) + Minted(s, t) + ListUnbacked(SortedPool(s.mempool), t)
    ensures Emission(Step(s, e), t) == Emission(s, t) + Minted(s, t)
    ensures Step(s, e).blockHeight == Add64(s.blockHeight, 1)
  {
    FittingStep(s, e);
    hide Inv, Appends, CreditsFit, Extends, Step;
    MineConserves(s, e.miner, PushedBlock(s, e.miner), Step(s, e));
    PotentialFalls(s, t);
  }

  /** Every state of an admissible run satisfies the reservation invariant and conserves both tokens exactly. */
  lemma {:induction false} RunInvariant(d: u64, es: seq<Event>)
    requires Admissible(d, es)
    ensures RunInv(d, es)
  {
    RunReserves(d, es);
    if es == [] {
    } else {
      hide Inv, NoncesWithin;
      RunInvariant(d, Init(es));
      if Appends(Run(FreshState(d), Init(es)), Last(es)) {
        MineEventConserves(d, es);
      } else {
        QuietEventConserves(d, es);
      }
    }
  }

  lemma QuietEventConserves(d: u64, es: seq<Event>)
    requires es != [] && Admissible(d, es) && RunInv(d, Init(es))
    requires !Appends(Run(FreshState(d), Init(es)), Last(es))
    ensures Conserved(d, es, Consumer) && Conserved(d, es, Industrial)
    ensures Run(FreshState(d), es).blockHeight == |Run(FreshState(d), es).chain|
  {
    hide Inv, NoncesWithin, SearchEnds, Appends, Step;
    QuietStep(Run(FreshState(d), Init(es)), Last(es));
    QuietStepKeepsTotal(Run(FreshState(d), Init(es)), Last(es), Consumer);
    QuietStepKeepsTotal(Run(FreshState(d), Init(es)), Last(es), Industrial);
  }

  lemma MineEventConserves(d: u64, es: seq<Event>)
    requires es != [] && Admissible(d, es) && RunInv(d, Init(es))
    requires Appends(Run(FreshState(d), Init(es)), Last(es))
    ensures Conserved(d, es, Consumer) && Conserved(d, es, Industrial)
    ensures Run(FreshState(d), es).blockHeight == |Run(FreshState(d), es).chain|
  {
    hide Inv, NoncesWithin, SearchEnds, Appends, CreditsFit, Step, Conserved, FeesOverflow;
    MineEventConservesFor(d, es, Consumer);
    MineEventConservesFor(d, es, Industrial);
    StepLengths(Run(FreshState(d), Init(es)), Last(es));
  }

  lemma MineEventConservesFor(d: u64, es: seq<Event>, t: Token)
    requires es != [] && Admissible(d, es) && Reserves(d, Init(es)) && Conserved(d, Init(es), t)
    requires Appends(Run(FreshState(d), Init(es)), Last(es))
    ensures Conserved(d, es, t)
    ensures var s := Run(FreshState(d), Init(es)); Run(FreshState(d), es).blockHeight == Add64(s.blockHeight, 1)
  {
    EmissionStaysBounded(d, Init(es), t);
    var s := Run(FreshState(d), Init(es));
    assert Last(es).MineEvent?;
    hide Inv, NoncesWithin, SearchEnds, CreditsFit, Step, Extends, SortedPool, Total, Minted;
    MineStepConserves(s, Last(es), t);
    AppendStep(s, Last(es));
  }

  /** Supply neutrality over whole runs, with its exact condition: balances are seeds plus emission if and only
      if no mined transaction paid out more than it took. */
  lemma ConservationOverRuns(d: u64, es: seq<Event>, t: Token)
    requires Admissible(d, es)
    ensures var s := Run(FreshState(d), es);
      Total(s.accounts, t) == Seeds(FreshState(d), es, t) + Emission(s, t)
      <==> forall i, j | 0 <= i < |s.chain| && 0 <= j < |Body(s.chain[i])| :: Unbacked(Body(s.chain[i])[j], t) == 0
  {
    RunInvariant(d, es);
    hide Run, Inv, NoncesWithin, Admissible;
    var s := Run(FreshState(d), es);
    assert Conserved(d, es, t);
    UnbackedZero(s.chain, t);
    forall i | 0 <= i < |s.chain|
      ensures ListUnbacked(Body(s.chain[i]), t) == 0
              <==> forall j | 0 <= j < |Body(s.chain[i])| :: Unbacked(Body(s.chain[i])[j], t) == 0
    {
      ListUnbackedZero(Body(s.chain[i]), t);
    }
  }

  lemma {:induction false} UnbackedZero(chain: seq<Block>, t: Token)
    ensures ChainUnbacked(chain, t) == 0 <==> forall i | 0 <= i < |chain| :: ListUnbacked(Body(chain[i]), t) == 0
  {
    if chain != [] {
      UnbackedZero(Init(chain), t);
      assert chain == Init(chain) + [Last(chain)];
    }
  }

  lemma {:induction false} ListUnbackedZero(txs: seq<SignedTransaction>, t: Token)
    ensures ListUnbacked(txs, t) == 0 <==> forall j | 0 <= j < |txs| :: Unbacked(txs[j], t) == 0
  {
    hide Unbacked;
    if txs != [] {
      ListUnbackedZero(txs[1..], t);
      assert forall j | 1 <= j < |txs| :: txs[j] == txs[1..][j - 1];
    }
  }

  /** INV-PENDING-003 and -004 in every reachable state, drops in any order: each account reserves the exact cost of its
      mempool entries and counts them; the coinbase address's also of everything ever mined from it. Every
      other account can pay them, and where every credit fits that one can too. */
  lemma ReservationsInEveryState(d: u64, es: seq<Event>, a: Bytes, t: Token)
    requires Uninterrupted(d, es) && a in Run(FreshState(d), es).accounts
    ensures var s := Run(FreshState(d), es); var acc := s.accounts[a];
      && Pend(acc, t) == PoolCost(s.mempool, a, t) + (if a == COINBASE then ChainCost(s.chain, a, t) else 0)
      && acc.pendingNonce == |PoolKeys(s.mempool, a)| + (if a == COINBASE then ChainCount(s.chain, a) else 0)
      && (a != COINBASE || Admissible(d, es) ==> Pend(acc, t) <= Bal(acc, t))
  {
    RunReserves(d, es);
    CoinbaseReserves(d, es);
    if a != COINBASE {
      var s := Run(FreshState(d), es);
      assert ReservedAt(s.accounts[a], s.mempool, a) && CountedAt(s.accounts[a], s.mempool, a);
    } else if Admissible(d, es) {
      CoinbaseSolvent(d, es, t);
    }
  }

  /** So no drop clamps, of whatever entry. */
  lemma DropsAreExact(d: u64, es: seq<Event>, k: Key, t: Token)
    requires Uninterrupted(d, es) && k in Run(FreshState(d), es).mempool
    ensures var s := Run(FreshState(d), es);
      && k.sender in s.accounts
      && Cost(s.mempool[k], t) <= Pend(s.accounts[k.sender], t)
      && s.accounts[k.sender].pendingNonce >= 1
  {
    RunReserves(d, es);
    var s := Run(FreshState(d), es);
    InvSequences(s);
    hide Inv, NoncesWithin, Uninterrupted, Run, Admitted, CountedAt, PoolCost, ChainCost, Cost;
    assert k.sender in s.accounts;
    ReservationsInEveryState(d, es, k.sender, t);
    CostRemove(s.mempool, k, k.sender, t);
    CountRemove(s.mempool, k, k.sender);
  }

  lemma {:induction false} CoinbaseSolvent(d: u64, es: seq<Event>, t: Token)
    requires Admissible(d, es)
    ensures var s := Run(FreshState(d), es); PendAt(s.accounts, COINBASE, t) <= BalAt(s.accounts, COINBASE, t)
  {
    if es != [] {
      var s := Run(FreshState(d), Init(es));
      CoinbaseSolvent(d, Init(es), t);
      RunReserves(d, Init(es));
      InvSequences(s);
      hide Inv, Sequenced, NoncesWithin, SearchEnds, CreditsFit, Step;
      if Appends(s, Last(es)) {
        MineLeavesSolvent(s, Last(es), t);
      } else if Last(es).MineEvent? {
        QuietStep(s, Last(es));
      } else {
        OtherStepSolvent(s, Last(es), t);
      }
    }
  }

  lemma OtherStepSolvent(s: State, e: Event, t: Token)
    requires !e.MineEvent? && PendAt(s.accounts, COINBASE, t) <= BalAt(s.accounts, COINBASE, t)
    ensures PendAt(Step(s, e).accounts, COINBASE, t) <= BalAt(Step(s, e).accounts, COINBASE, t)
  {
    hide VerifySignedTx, Covers;
    if e.SubmitEvent? && Submit(s, e.tx).Ok? {
      AcceptedSubmit(s, e.tx);
      ReserveIsExact(s.accounts[e.tx.payload.from_], e.tx, t);
    }
  }

  lemma MineLeavesSolvent(s: State, e: Event, t: Token)
    requires Sequenced(s) && Appends(s, e) && CreditsFit(s, e.miner)
    requires PendAt(s.accounts, COINBASE, t) <= BalAt(s.accounts, COINBASE, t)
    ensures PendAt(Step(s, e).accounts, COINBASE, t) <= BalAt(Step(s, e).accounts, COINBASE, t)
  {
    FittingStep(s, e);
    hide Sequenced, Appends, Extends, SortedPool, Settle, Step, SettlesFit, PushedBlock, Fits, Credit, PendAt, BalAt,
      Minted, ListFee;
    var b := PushedBlock(s, e.miner);
    PushedCoinbase(s, e);
    SettlePend(s.accounts, SortedPool(s.mempool), COINBASE, t);
    SettleRaisesCoinbase(s.accounts, SortedPool(s.mempool), t);
    CreditSolvent(Settle(s.accounts, SortedPool(s.mempool)), e.miner, b.coinbaseConsumer, b.coinbaseIndustrial, t);
  }

  lemma PushedCoinbase(s: State, e: Event)
    requires Appends(s, e)
    ensures !FeesOverflow(s)
    ensures var b := PushedBlock(s, e.miner);
      && b.coinbaseConsumer == Minted(s, Consumer) + ListFee(SortedPool(s.mempool), Consumer)
      && b.coinbaseIndustrial == Minted(s, Industrial) + ListFee(SortedPool(s.mempool), Industrial)
  {
    hide SortedPool, FirstNonce, Minted, ListFee;
  }

  lemma CreditSolvent(accts: Accounts, a: Bytes, consumer: u64, industrial: u64, t: Token)
    requires Fits(accts, a, consumer, industrial)
    ensures PendAt(Credit(accts, a, consumer, industrial), COINBASE, t) == PendAt(accts, COINBASE, t)
    ensures BalAt(Credit(accts, a, consumer, industrial), COINBASE, t) >= BalAt(accts, COINBASE, t)
  {
  }

  // ---- no arithmetic fault ----

  /** Seeds so far, everything mining can ever mint, and the unbacked payments mined or pending together fit a word. */
  ghost predicate RoomToMine(d: u64, es: seq<Event>, t: Token) {
    var s := Run(FreshState(d), es);
    Seeds(FreshState(d), es, t) + EmissionBound(t) + ChainUnbacked(s.chain, t) + ListUnbacked(SortedPool(s.mempool), t)
    < TWO64
  }

  /** They do whenever a block is mined. */
  ghost predicate Funded(d: u64, es: seq<Event>, t: Token) {
    es == [] || (Funded(d, Init(es), t) && (Last(es).MineEvent? ==> RoomToMine(d, Init(es), t)))
  }

  lemma HeadroomInRun(d: u64, es: seq<Event>, t: Token)
    requires Conserved(d, es, t) && RoomToMine(d, es, t)
    ensures Headroom(Run(FreshState(d), es), t)
  {
    hide Run;
    EmissionStaysBounded(d, es, t);
    PotentialFalls(Run(FreshState(d), es), t);
  }

  /** A run funded for both tokens is admissible, and every `mine_block` in it returns a block. */
  lemma {:induction false} FundedRunsAreAdmissible(d: u64, es: seq<Event>)
    requires Uninterrupted(d, es) && Funded(d, es, Consumer) && Funded(d, es, Industrial)
    ensures Admissible(d, es) && MinesSucceed(FreshState(d), es)
  {
    if es != [] {
      FundedRunsAreAdmissible(d, Init(es));
      RunInvariant(d, Init(es));
      if Last(es).MineEvent? {
        hide Inv, NoncesWithin, Conserved, RoomToMine, CreditsFit, FeesOverflow, Pushes, SettlesExactly, Headroom;
        var s := Run(FreshState(d), Init(es));
        HeadroomInRun(d, Init(es), Consumer);
        HeadroomInRun(d, Init(es), Industrial);
        HeadroomFits(s, Last(es).miner);
        FittingMineSucceeds(s, Last(es).miner);
      }
    }
  }

  /** In a funded run with room for one more block, no mine has met or can meet an arithmetic fault. */
  lemma NoArithmeticFault(d: u64, es: seq<Event>, miner: Bytes)
    requires Uninterrupted(d, es) && Funded(d, es, Consumer) && Funded(d, es, Industrial)
    requires RoomToMine(d, es, Consumer) && RoomToMine(d, es, Industrial)
    ensures MinesSucceed(FreshState(d), es)
    ensures var s := Run(FreshState(d), es);
      && SettlesExactly(s.accounts, SortedPool(s.mempool))
      && (MineOutcome(s, miner).Ok? || MineOutcome(s, miner) == Err(NonceOverflow))
      && (forall a | a in s.accounts :: s.accounts[a].nonce + s.accounts[a].pendingNonce < TWO64)
  {
    FundedRunsAreAdmissible(d, es);
    RunInvariant(d, es);
    hide Uninterrupted, Funded, MinesSucceed, Admissible, Run, Inv, Conserved, RoomToMine, Headroom, SettlesExactly;
    HeadroomInRun(d, es, Consumer);
    HeadroomInRun(d, es, Industrial);
    MiningIsFaultFree(Run(FreshState(d), es), miner);
  }

  /** Nothing is submitted from the coinbase address or past the overflow guard. */
  ghost predicate PlainEvents(es: seq<Event>) {
    forall e | e in es && e.SubmitEvent? :: Guarded(e.tx) && e.tx.payload.from_ != COINBASE
  }

  /** In particular a run without such submissions is funded if its seeds and 20 000 initial rewards fit a word. */
  lemma {:induction false} PlainRunsAreFunded(d: u64, es: seq<Event>, t: Token)
    requires Uninterrupted(d, es) && PlainEvents(es)
    requires Seeds(FreshState(d), es, t) + EmissionBound(t) < TWO64
    ensures Funded(d, es, t) && RoomToMine(d, es, t)
  {
    PlainRunsMintNothing(d, es, t);
    if es != [] {
      PrefixEvents(es);
      PlainRunsAreFunded(d, Init(es), t);
    }
  }

  lemma PlainRunsMintNothing(d: u64, es: seq<Event>, t: Token)
    requires Uninterrupted(d, es) && PlainEvents(es)
    ensures var s := Run(FreshState(d), es);
      ChainUnbacked(s.chain, t) == 0 && ListUnbacked(SortedPool(s.mempool), t) == 0
  {
    hide Run, Uninterrupted, Inv, Guarded;
    var s := Run(FreshState(d), es);
    SubmittedOnly(d, es);
    RunReserves(d, es);
    InvSequences(s);
    KeyedPool(s);
    PooledWereSubmitted(s.mempool, es);
    PlainListMintsNothing(SortedPool(s.mempool), es, t);
    forall i | 0 <= i < |s.chain|
      ensures ListUnbacked(Body(s.chain[i]), t) == 0
    {
      PlainListMintsNothing(Body(s.chain[i]), es, t);
    }
    UnbackedZero(s.chain, t);
  }

  lemma PlainListMintsNothing(txs: seq<SignedTransaction>, es: seq<Event>, t: Token)
    requires PlainEvents(es) && forall j | 0 <= j < |txs| :: SubmitEvent(txs[j]) in es
    ensures ListUnbacked(txs, t) == 0
  {
    forall j | 0 <= j < |txs|
      ensures Unbacked(txs[j], t) == 0
    {
      assert Guarded(SubmitEvent(txs[j]).tx);
      UnbackedIff(txs[j], t);
    }
    ListUnbackedZero(txs, t);
  }

  // ---- where transactions come from ----

  /** Whatever is pending or mined was submitted. */
  ghost predicate AllSubmitted(s: State, es: seq<Event>) {
    && (forall k | k in s.mempool :: SubmitEvent(s.mempool[k]) in es)
    && (forall i, j | 0 <= i < |s.chain| && 0 <= j < |Body(s.chain[i])| :: SubmitEvent(Body(s.chain[i])[j]) in es)
  }

  lemma PooledWereSubmitted(pool: Pool, es: seq<Event>)
    requires Keyed(pool) && forall k | k in pool :: SubmitEvent(pool[k]) in es
    ensures forall j | 0 <= j < |SortedPool(pool)| :: SubmitEvent(SortedPool(pool)[j]) in es
  {
    SortedPoolLists(pool);
    forall j | 0 <= j < |SortedPool(pool)|
      ensures SubmitEvent(SortedPool(pool)[j]) in es
    {
      assert SortedPool(pool)[j] in SortedPool(pool);
    }
  }

  lemma {:induction false} SubmittedOnly(d: u64, es: seq<Event>)
    requires Uninterrupted(d, es)
    ensures AllSubmitted(Run(FreshState(d), es), es)
  {
    hide Inv, SearchEnds, Appends, Step, AllSubmitted;
    if es == [] {
      FreshSubmitted(d);
    } else {
      PrefixEvents(es);
      SubmittedOnly(d, Init(es));
      RunReserves(d, Init(es));
      InvSequences(Run(FreshState(d), Init(es)));
      KeyedPool(Run(FreshState(d), Init(es)));
      StepSubmitted(Run(FreshState(d), Init(es)), Last(es), Init(es), es);
    }
  }

  lemma FreshSubmitted(d: u64)
    ensures AllSubmitted(FreshState(d), [])
  {
  }

  lemma StepSubmitted(s: State, e: Event, es: seq<Event>, es': seq<Event>)
    requires AllSubmitted(s, es) && Keyed(s.mempool) && SearchEnds(s, e)
    requires forall x :: x in es' <==> x in es || x == e
    ensures AllSubmitted(Step(s, e), es')
  {
    if Appends(s, e) {
      AppendSubmitted(s, e, es);
    } else {
      QuietStep(s, e);
      if !e.MineEvent? {
        CallSubmitted(s, e, es);
      }
    }
    hide Step, Appends, SearchEnds, Keyed, Body;
  }

  lemma AppendSubmitted(s: State, e: Event, es: seq<Event>)
    requires AllSubmitted(s, es) && Keyed(s.mempool) && Appends(s, e)
    ensures AllSubmitted(Step(s, e), es)
  {
    AppendStep(s, e);
    PooledWereSubmitted(s.mempool, es);
    hide Step, Appends, SearchEnds, Extends, SortedPool, PushedBlock, Body, Keyed;
    var chain' := Step(s, e).chain;
    forall i, j | 0 <= i < |chain'| && 0 <= j < |Body(chain'[i])|
      ensures SubmitEvent(Body(chain'[i])[j]) in es
    {
      assert i < |s.chain| ==> chain'[i] == s.chain[i];
    }
  }

  lemma CallSubmitted(s: State, e: Event, es: seq<Event>)
    requires !e.MineEvent? && AllSubmitted(s, es)
    ensures AllSubmitted(Step(s, e), es + [e])
  {
    hide VerifySignedTx, Covers, Body;
    StepKeepsChain(s, e);
    var pool' := Step(s, e).mempool;
    forall k | k in pool'
      ensures SubmitEvent(pool'[k]) in es || SubmitEvent(pool'[k]) == e
    {
    }
  }

  // ---- accounts know their addresses ----

  ghost predicate Named(accts: Accounts) {
    forall a | a in accts :: accts[a].address == a
  }

  lemma {:induction false} SettleNamed(accts: Accounts, txs: seq<SignedTransaction>)
    requires Named(accts)
    ensures Named(Settle(accts, txs))
    decreases |txs|
  {
    if txs != [] {
      SettleNamed(SettleOne(accts, txs[0]), txs[1..]);
    }
  }

  lemma MineNamed(s: State, miner: Bytes)
    requires Named(s.accounts)
    ensures Named(MineState(s, miner).accounts)
  {
    if Candidate(s, miner).Ok? {
      SettleNamed(s.accounts, Candidate(s, miner).value.transactions[1..]);
    }
  }

  lemma StepNamed(s: State, e: Event)
    requires Named(s.accounts)
    ensures Named(Step(s, e).accounts)
  {
    hide MineState, VerifySignedTx, Covers;
    if e.MineEvent? {
      MineNamed(s, e.miner);
    }
  }

  /** Whatever is called, in any order and with any outcome, each account is stored under its own address. */
  lemma {:induction false} AccountsStayNamed(s: State, es: seq<Event>)
    requires Named(s.accounts)
    ensures Named(Run(s, es).accounts)
  {
    if es != [] {
      hide MineState, Submit, Drop, Named;
      AccountsStayNamed(s, Init(es));
      StepNamed(Run(s, Init(es)), Last(es));
    }
  }
}
