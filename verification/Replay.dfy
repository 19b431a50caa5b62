/** Importing a chain: replay from nothing, and the mine-to-import round trip (src/lib.rs:917-1048). */
module Replay {
  import opened Machine
  import opened Fee
  import opened Encoding
  import opened Crypto
  import opened Transaction
  import opened Order
  import opened Ledger
  import opened Settlement
  import opened Reservation
  import opened RewardDecay
  import opened Runs
  import opened NonceHistory
  import opened Validation
  import opened Agreement

  datatype ImportError =
    | NotLonger
    | InvalidChain
    | InvalidPubkey
    | InvalidSignature
    | BadSignature
    | FeeSumOverflow
    | ChecksumMismatch
    | FeeMismatch
    | MinerBalanceOverflow
    | CoinbaseMismatch

  function SignatureError(tx: SignedTransaction): Option<ImportError> {
    if |tx.publicKey| != 32 || !Ed25519KeyOk(tx.publicKey) then Some(InvalidPubkey)
    else if |tx.signature| != 64 then Some(InvalidSignature)
    else if !Ed25519Verify(tx.publicKey, SigningMessage(tx.payload), tx.signature) then Some(BadSignature)
    else None
  }

  // ---- one block ----

  /** Replay keeps no reservations, and passes over a sender it has no account for. */
  function ReplayDebit(accts: Accounts, tx: SignedTransaction): Accounts {
    var from_ := tx.payload.from_;
    if from_ != COINBASE && from_ in accts then
      var acc := accts[from_];
      accts[from_ := acc.(balance := TokenBalance(SatSub(acc.balance.consumer, Cost(tx, Consumer)),
                                                  SatSub(acc.balance.industrial, Cost(tx, Industrial))),
                          nonce := tx.payload.nonce)]
    else accts
  }

  function ReplayOne(accts: Accounts, tx: SignedTransaction): Accounts {
    Credit(ReplayDebit(accts, tx), tx.payload.to, tx.payload.amountConsumer, tx.payload.amountIndustrial)
  }

  /** The fee replay counts: only one it has debited. */
  function CountedFee(accts: Accounts, tx: SignedTransaction, t: Token): u64 {
    if tx.payload.from_ != COINBASE && tx.payload.from_ in accts then FeeOf(tx, t) else 0
  }

  function ReplayTxs(accts: Accounts, txs: seq<SignedTransaction>): Result<Accounts, ImportError>
    decreases |txs|
  {
    if txs == [] then Ok(accts)
    else if txs[0].payload.from_ != COINBASE && SignatureError(txs[0]).Some? then Err(SignatureError(txs[0]).value)
    else ReplayTxs(ReplayOne(accts, txs[0]), txs[1..])
  }

  function ReplayFees(accts: Accounts, txs: seq<SignedTransaction>, t: Token): nat
    decreases |txs|
  {
    if txs == [] then 0
    else CountedFee(accts, txs[0], t) + ReplayFees(ReplayOne(accts, txs[0]), txs[1..], t)
  }

  function MinerOf(b: Block): Bytes {
    if b.transactions == [] then [] else b.transactions[0].payload.to
  }

  /** `s` with `b` appended: the whole coinbase counts as emission. */
  function Appended(s: State, b: Block, accts: Accounts): State {
    s.(chain := s.chain + [b],
       accounts := Credit(accts, MinerOf(b), b.coinbaseConsumer, b.coinbaseIndustrial),
       rewardConsumer := Decay(s.rewardConsumer),
       rewardIndustrial := Decay(s.rewardIndustrial),
       emissionConsumer := Add64(s.emissionConsumer, b.coinbaseConsumer),
       emissionIndustrial := Add64(s.emissionIndustrial, b.coinbaseIndustrial),
       blockHeight := Add64(s.blockHeight, 1))
  }

  function ReplayBlock(s: State, b: Block): Result<State, ImportError> {
    match ReplayTxs(s.accounts, Body(b))
    case Err(e) => Err(e)
    case Ok(accts) =>
      var feeC, feeI := ReplayFees(s.accounts, Body(b), Consumer), ReplayFees(s.accounts, Body(b), Industrial);
      if feeC >= TWO64 || feeI >= TWO64 then Err(FeeSumOverflow)
      else if FeeChecksum(feeC, feeI) != b.feeChecksum then Err(ChecksumMismatch)
      else if b.coinbaseConsumer < feeC || b.coinbaseIndustrial < feeI then Err(FeeMismatch)
      else if || BalAt(accts, MinerOf(b), Consumer) + b.coinbaseConsumer >= TWO64
              || BalAt(accts, MinerOf(b), Industrial) + b.coinbaseIndustrial >= TWO64 then Err(MinerBalanceOverflow)
      else if b.transactions != [] && (|| Amount(b.transactions[0], Consumer) != b.coinbaseConsumer
                                       || Amount(b.transactions[0], Industrial) != b.coinbaseIndustrial)
      then Err(CoinbaseMismatch)
      else Ok(Appended(s, b, accts))
  }

  // ---- a chain ----

  function ReplayChain(s: State, blocks: seq<Block>): Result<State, ImportError> {
    if blocks == [] then Ok(s)
    else
      match ReplayChain(s, Init(blocks))
      case Err(e) => Err(e)
      case Ok(s') => ReplayBlock(s', Last(blocks))
  }

  function Cleared(s: State): State {
    s.(chain := [], accounts := map[], emissionConsumer := 0, emissionIndustrial := 0,
       rewardConsumer := InitialReward(Consumer), rewardIndustrial := InitialReward(Industrial), blockHeight := 0)
  }

  /** `import_chain`'s answer, with the state on success. */
  ghost function Import(s: State, blocks: seq<Block>): Result<State, ImportError> {
    if |blocks| <= |s.chain| then Err(NotLonger)
    else if !ValidChain(blocks, s.difficulty % TWO32) then Err(InvalidChain)
    else ReplayChain(Cleared(s), blocks)
  }

  // ---- where a failing import stops ----

  /** The accounts at a list's first bad signature, or at its end. */
  function TxsReached(accts: Accounts, txs: seq<SignedTransaction>): Accounts
    decreases |txs|
  {
    if txs == [] || (txs[0].payload.from_ != COINBASE && SignatureError(txs[0]).Some?) then accts
    else TxsReached(ReplayOne(accts, txs[0]), txs[1..])
  }

  /** A block that fails leaves its transactions replayed, and the miner credited as far as the failure let it. */
  function BlockReached(s: State, b: Block): State {
    var accts := TxsReached(s.accounts, Body(b));
    match ReplayBlock(s, b)
    case Ok(s') => s'
    case Err(MinerBalanceOverflow) =>
      if BalAt(accts, MinerOf(b), Consumer) + b.coinbaseConsumer >= TWO64
      then s.(accounts := Credit(accts, MinerOf(b), 0, 0))
      else s.(accounts := Credit(accts, MinerOf(b), b.coinbaseConsumer, 0))
    case Err(CoinbaseMismatch) => s.(accounts := Credit(accts, MinerOf(b), b.coinbaseConsumer, b.coinbaseIndustrial))
    case Err(_) => s.(accounts := accts)
  }

  function ChainReached(s: State, blocks: seq<Block>): State {
    if blocks == [] then s
    else
      match ReplayChain(s, Init(blocks))
      case Err(_) => ChainReached(s, Init(blocks))
      case Ok(s') => BlockReached(s', Last(blocks))
  }

  /** The state `import_chain` leaves, whatever its answer: past the checks the old chain and accounts are gone. */
  ghost function ImportState(s: State, blocks: seq<Block>): State {
    if |blocks| <= |s.chain| || !ValidChain(blocks, s.difficulty % TWO32) then s
    else ChainReached(Cleared(s), blocks)
  }

  lemma {:induction false} ReachedList(accts: Accounts, txs: seq<SignedTransaction>)
    ensures ReplayTxs(accts, txs).Ok? ==> TxsReached(accts, txs) == ReplayTxs(accts, txs).value
    decreases |txs|
  {
    hide SignatureError, ReplayOne;
    if txs != [] {
      ReachedList(ReplayOne(accts, txs[0]), txs[1..]);
    }
  }

  lemma ReachedOnSuccess(s: State, blocks: seq<Block>)
    ensures Import(s, blocks).Ok? ==> Import(s, blocks) == Ok(ImportState(s, blocks))
  {
    hide ValidChain, ReplayBlock;
    if blocks != [] && ReplayChain(Cleared(s), blocks).Ok? {
      assert ReplayChain(Cleared(s), Init(blocks)).Ok?;
    }
  }

  // ---- whose fees replay counts ----

  /** Replay knows an address from its first credit on. */
  ghost predicate Known(keys: set<Bytes>, tx: SignedTransaction) {
    tx.payload.from_ != COINBASE && tx.payload.from_ in keys
  }

  ghost function Recipients(txs: seq<SignedTransaction>): set<Bytes> {
    if txs == [] then {} else {txs[0].payload.to} + Recipients(txs[1..])
  }

  /** Everybody the chain has credited: recipients and miners. */
  ghost function CreditedBy(chain: seq<Block>): set<Bytes> {
    if chain == [] then {} else CreditedBy(Init(chain)) + Recipients(Body(Last(chain))) + {MinerOf(Last(chain))}
  }

  /** Each transaction that names a fee comes from an address credited before it, other than the coinbase address. */
  ghost predicate ListCounted(keys: set<Bytes>, txs: seq<SignedTransaction>)
    decreases |txs|
  {
    txs == []
    || (&& (txs[0].payload.fee == 0 || Known(keys, txs[0]))
        && ListCounted(keys + {txs[0].payload.to}, txs[1..]))
  }

  ghost predicate FeesCounted(chain: seq<Block>) {
    chain == [] || (FeesCounted(Init(chain)) && ListCounted(CreditedBy(Init(chain)), Body(Last(chain))))
  }

  ghost function UncountedFee(keys: set<Bytes>, txs: seq<SignedTransaction>, t: Token): (f: nat)
    ensures f <= ListFee(txs, t)
    decreases |txs|
  {
    if txs == [] then 0
    else (if Known(keys, txs[0]) then 0 else FeeOf(txs[0], t))
         + UncountedFee(keys + {txs[0].payload.to}, txs[1..], t)
  }

  lemma {:induction false} ReplayFeesCounted(accts: Accounts, txs: seq<SignedTransaction>, t: Token)
    ensures ReplayFees(accts, txs, t) + UncountedFee(accts.Keys, txs, t) == ListFee(txs, t)
    decreases |txs|
  {
    hide FeeOf;
    if txs != [] {
      ReplayFeesCounted(ReplayOne(accts, txs[0]), txs[1..], t);
      assert ReplayOne(accts, txs[0]).Keys == accts.Keys + {txs[0].payload.to};
    }
  }

  lemma {:induction false} ReplayKeys(accts: Accounts, txs: seq<SignedTransaction>)
    requires ReplayTxs(accts, txs).Ok?
    ensures ReplayTxs(accts, txs).value.Keys == accts.Keys + Recipients(txs)
    decreases |txs|
  {
    hide SignatureError;
    if txs != [] {
      ReplayKeys(ReplayOne(accts, txs[0]), txs[1..]);
      assert ReplayOne(accts, txs[0]).Keys == accts.Keys + {txs[0].payload.to};
    }
  }

  ghost predicate AllDecompose(txs: seq<SignedTransaction>) {
    forall i | 0 <= i < |txs| :: Decompose(txs[i].payload.feeSelector, txs[i].payload.fee).Ok?
  }

  lemma FeeIsSplit(tx: SignedTransaction)
    requires Decompose(tx.payload.feeSelector, tx.payload.fee).Ok?
    ensures FeeOf(tx, Consumer) + FeeOf(tx, Industrial) == tx.payload.fee
  {
  }

  lemma {:induction false} CountedIff(keys: set<Bytes>, txs: seq<SignedTransaction>)
    requires AllDecompose(txs)
    ensures ListCounted(keys, txs) <==> UncountedFee(keys, txs, Consumer) == 0 == UncountedFee(keys, txs, Industrial)
    decreases |txs|
  {
    hide FeeOf;
    if txs != [] {
      FeeIsSplit(txs[0]);
      CountedIff(keys + {txs[0].payload.to}, txs[1..]);
    }
  }

  // ---- balances: the shortfall of a replay ----

  /** The least of `m` and the members of `xs`. */
  ghost function Lowest(m: nat, xs: seq<nat>): nat {
    if xs == [] then m else Lowest(Min(m, xs[0]), xs[1..])
  }

  lemma {:induction false} LowestAppend(m: nat, xs: seq<nat>, ys: seq<nat>)
    ensures Lowest(m, xs + ys) == Lowest(Lowest(m, xs), ys)
  {
    if xs == [] {
      assert xs + ys == ys;
    } else {
      LowestAppend(Min(m, xs[0]), xs[1..], ys);
      assert (xs + ys)[1..] == xs[1..] + ys;
    }
  }

  lemma {:induction false} LowestIsZero(m: nat, xs: seq<nat>)
    ensures Lowest(m, xs) == 0 <==> m == 0 || 0 in xs
  {
    if xs != [] {
      LowestIsZero(Min(m, xs[0]), xs[1..]);
      assert 0 in xs <==> xs[0] == 0 || 0 in xs[1..];
    }
  }

  /** What an address is left with by each of its debits in a settlement. */
  ghost function PostDebits(accts: Accounts, txs: seq<SignedTransaction>, a: Bytes, t: Token): seq<nat>
    decreases |txs|
  {
    if txs == [] then [] else DebitLeaves(accts, txs[0], a, t) + PostDebits(SettleOne(accts, txs[0]), txs[1..], a, t)
  }

  ghost function DebitLeaves(accts: Accounts, tx: SignedTransaction, a: Bytes, t: Token): seq<nat> {
    if tx.payload.from_ == a && a != COINBASE && a in accts then [BalAt(Debit(accts, tx), a, t)] else []
  }

  ghost predicate Short(x: Accounts, y: Accounts, a: Bytes, t: Token, m: nat) {
    BalAt(x, a, t) == BalAt(y, a, t) + m
  }

  /** A debit that the replaying ledger cannot pay in full takes what there is: what is missing there afterwards is what
      was missing before, but no more than what the debit leaves on the settling one. */
  lemma DebitShort(x: Accounts, y: Accounts, tx: SignedTransaction, a: Bytes, t: Token, m: nat)
    requires Short(x, y, a, t, m)
    requires tx.payload.from_ != COINBASE ==> tx.payload.from_ in x && DebitExact(x[tx.payload.from_], tx)
    ensures Short(Debit(x, tx), ReplayDebit(y, tx), a, t, Lowest(m, DebitLeaves(x, tx, a, t)))
  {
    hide Cost;
    var lows := DebitLeaves(x, tx, a, t);
    if lows != [] {
      assert Cost(tx, t) <= Bal(x[a], t);
      assert Lowest(Min(m, lows[0]), lows[1..]) == Min(m, lows[0]);
    }
  }

  lemma CreditShort(x: Accounts, y: Accounts, to: Bytes, consumer: u64, industrial: u64, a: Bytes, t: Token, m: nat)
    requires Short(x, y, a, t, m) && Fits(x, to, consumer, industrial)
    ensures Short(Credit(x, to, consumer, industrial), Credit(y, to, consumer, industrial), a, t, m)
  {
  }

  /** Replaying a list that settled exactly: the shortfall of an address is lowered to what each of its debits leaves,
      and nothing else moves it. */
  lemma {:induction false} ReplayShortfall(x: Accounts, y: Accounts, txs: seq<SignedTransaction>, a: Bytes, t: Token, m: nat)
    requires Short(x, y, a, t, m) && SettlesExactly(x, txs) && ReplayTxs(y, txs).Ok?
    ensures Short(Settle(x, txs), ReplayTxs(y, txs).value, a, t, Lowest(m, PostDebits(x, txs, a, t)))
    decreases |txs|
  {
    if txs != [] {
      var tx, p := txs[0], txs[0].payload;
      hide Short, DebitExact, SignatureError, Fits, Credit, Debit, ReplayDebit, DebitLeaves, Lowest;
      var m' := Lowest(m, DebitLeaves(x, tx, a, t));
      DebitShort(x, y, tx, a, t, m);
      CreditShort(Debit(x, tx), ReplayDebit(y, tx), p.to, p.amountConsumer, p.amountIndustrial, a, t, m');
      ReplayShortfall(SettleOne(x, tx), ReplayOne(y, tx), txs[1..], a, t, m');
      LowestAppend(m, DebitLeaves(x, tx, a, t), PostDebits(SettleOne(x, tx), txs[1..], a, t));
    }
  }

  // ---- nonces ----

  /** Whether an address had been credited before its last transaction in the list; `known` if it has none. */
  ghost function LastKnown(keys: set<Bytes>, txs: seq<SignedTransaction>, a: Bytes, known: bool): bool
    decreases |txs|
  {
    if txs == [] then known
    else LastKnown(keys + {txs[0].payload.to}, txs[1..], a,
                   if txs[0].payload.from_ == a != COINBASE then a in keys else known)
  }

  /** The same along a chain: true for an address without transactions, and for the coinbase address. */
  ghost function ChainKnown(chain: seq<Block>, a: Bytes): bool {
    chain == [] || LastKnown(CreditedBy(Init(chain)), Body(Last(chain)), a, ChainKnown(Init(chain), a))
  }

  ghost predicate NonceKnown(x: Accounts, y: Accounts, a: Bytes, known: bool) {
    NonceAt(y, a) == if known then NonceAt(x, a) else 0
  }

  /** Replay keeps the nonce of a sender it knows at its last transaction, and has none for any other. */
  lemma {:induction false} ReplayNonce(x: Accounts, y: Accounts, txs: seq<SignedTransaction>, a: Bytes, known: bool)
    requires NonceKnown(x, y, a, known) && ReplayTxs(y, txs).Ok?
    requires forall i | 0 <= i < |txs| :: txs[i].payload.from_ in x
    ensures NonceKnown(Settle(x, txs), ReplayTxs(y, txs).value, a, LastKnown(y.Keys, txs, a, known))
    decreases |txs|
  {
    hide SignatureError, Cost;
    if txs != [] {
      var known' := if txs[0].payload.from_ == a != COINBASE then a in y.Keys else known;
      assert ReplayOne(y, txs[0]).Keys == y.Keys + {txs[0].payload.to};
      NonceStep(x, y, txs[0], a, known);
      hide NonceKnown, SettleOne, ReplayOne;
      SettleOneKeys(x, txs[0]);
      ReplayNonce(SettleOne(x, txs[0]), ReplayOne(y, txs[0]), txs[1..], a, known');
    }
  }

  lemma SettleOneKeys(x: Accounts, tx: SignedTransaction)
    ensures x.Keys <= SettleOne(x, tx).Keys
  {
  }

  lemma NonceStep(x: Accounts, y: Accounts, tx: SignedTransaction, a: Bytes, known: bool)
    requires NonceKnown(x, y, a, known) && tx.payload.from_ in x
    ensures NonceKnown(SettleOne(x, tx), ReplayOne(y, tx), a,
                       if tx.payload.from_ == a != COINBASE then a in y.Keys else known)
  {
    hide Cost;
  }

  // ---- one mined block ----

  /** The two totals a replay's checksum is compared over, all fees and the counted ones, do not collide. */
  ghost predicate ChecksumFaithful(keys: set<Bytes>, txs: seq<SignedTransaction>) {
    var allC, allI := ListFee(txs, Consumer), ListFee(txs, Industrial);
    allC < TWO64 && allI < TWO64 ==>
      CollisionFree({FeePreimage(allC, allI),
                     FeePreimage(allC - UncountedFee(keys, txs, Consumer), allI - UncountedFee(keys, txs, Industrial))})
  }

  ghost predicate NoChecksumCollisions(chain: seq<Block>) {
    chain == [] || (NoChecksumCollisions(Init(chain)) && ChecksumFaithful(CreditedBy(Init(chain)), Body(Last(chain))))
  }

  lemma ChecksumsDiffer(allC: u64, allI: u64, feeC: u64, feeI: u64)
    requires CollisionFree({FeePreimage(allC, allI), FeePreimage(feeC, feeI)})
    ensures FeeChecksum(feeC, feeI) == FeeChecksum(allC, allI) <==> feeC == allC && feeI == allI
  {
    if FeeChecksum(feeC, feeI) == FeeChecksum(allC, allI) {
      HexInjective(Blake3(FeePreimage(feeC, feeI)), Blake3(FeePreimage(allC, allI)));
      FeePreimageInjective(feeC, feeI, allC, allI);
    }
  }

  lemma VerifiedHasNoError(tx: SignedTransaction)
    ensures SignatureError(tx).None? <==> VerifySignedTx(tx)
  {
  }

  lemma {:induction false} VerifiedListReplays(accts: Accounts, txs: seq<SignedTransaction>)
    requires SignaturesOk(txs)
    ensures ReplayTxs(accts, txs).Ok?
    decreases |txs|
  {
    hide VerifySignedTx, SignatureError;
    if txs != [] {
      VerifiedHasNoError(txs[0]);
      VerifiedListReplays(ReplayOne(accts, txs[0]), txs[1..]);
    }
  }

  lemma PoolAdmitted(s: State)
    requires Sequenced(s)
    ensures SignaturesOk(SortedPool(s.mempool)) && AllDecompose(SortedPool(s.mempool))
  {
    hide Sequenced, SortedPool, VerifySignedTx;
    forall i | 0 <= i < |SortedPool(s.mempool)|
      ensures Admitted(SortedPool(s.mempool)[i])
    {
      AdmittedTx(s, i);
    }
  }

  /** No address holds more on `y` than on `x`. */
  ghost predicate Dominates(x: Accounts, y: Accounts) {
    forall a, t :: BalAt(y, a, t) <= BalAt(x, a, t)
  }

  lemma MinerFits(s: State, r: State, miner: Bytes, b: Block)
    requires CreditsFit(s, miner) && BuiltFrom(b, s, miner) && SettlesExactly(s.accounts, SortedPool(s.mempool))
    requires ReplayTxs(r.accounts, SortedPool(s.mempool)).Ok? && Dominates(s.accounts, r.accounts)
    ensures var accts := ReplayTxs(r.accounts, SortedPool(s.mempool)).value;
      && BalAt(accts, miner, Consumer) + b.coinbaseConsumer < TWO64
      && BalAt(accts, miner, Industrial) + b.coinbaseIndustrial < TWO64
    ensures Fits(Settle(s.accounts, SortedPool(s.mempool)), miner, b.coinbaseConsumer, b.coinbaseIndustrial)
  {
    hide SortedPool, Settle, ReplayTxs, SettlesExactly, SettlesFit, Minted, ListFee, FeeChecksum, Lowest, PostDebits;
    var txs := SortedPool(s.mempool);
    forall t
      ensures BalAt(ReplayTxs(r.accounts, txs).value, miner, t) <= BalAt(Settle(s.accounts, txs), miner, t)
    {
      assert BalAt(r.accounts, miner, t) <= BalAt(s.accounts, miner, t);
      ReplayShortfall(s.accounts, r.accounts, txs, miner, t, BalAt(s.accounts, miner, t) - BalAt(r.accounts, miner, t));
    }
  }

  /** What replay looks at in a mined block. */
  lemma PushedShape(s: State, miner: Bytes)
    requires Pushes(s, miner)
    ensures var b := PushedBlock(s, miner); var txs := SortedPool(s.mempool);
      && Body(b) == txs && MinerOf(b) == miner && b.transactions != []
      && Amount(b.transactions[0], Consumer) == b.coinbaseConsumer == Minted(s, Consumer) + ListFee(txs, Consumer)
      && Amount(b.transactions[0], Industrial) == b.coinbaseIndustrial == Minted(s, Industrial) + ListFee(txs, Industrial)
      && b.feeChecksum == FeeChecksum(ListFee(txs, Consumer), ListFee(txs, Industrial))
  {
    hide SortedPool, FirstNonce, FeeChecksum, Minted, ListFee;
    var c := Candidate(s, miner).value;
    assert c.transactions[1..] == SortedPool(s.mempool);
  }

  lemma ReplayOutcome(r: State, b: Block, feeC: u64, feeI: u64)
    requires ReplayTxs(r.accounts, Body(b)).Ok? && b.transactions != []
    requires feeC == ReplayFees(r.accounts, Body(b), Consumer) <= b.coinbaseConsumer == Amount(b.transactions[0], Consumer)
    requires feeI == ReplayFees(r.accounts, Body(b), Industrial) <= b.coinbaseIndustrial
    requires b.coinbaseIndustrial == Amount(b.transactions[0], Industrial)
    requires var accts := ReplayTxs(r.accounts, Body(b)).value;
      && BalAt(accts, MinerOf(b), Consumer) + b.coinbaseConsumer < TWO64
      && BalAt(accts, MinerOf(b), Industrial) + b.coinbaseIndustrial < TWO64
    ensures ReplayBlock(r, b)
            == if FeeChecksum(feeC, feeI) == b.feeChecksum
               then Ok(Appended(r, b, ReplayTxs(r.accounts, Body(b)).value)) else Err(ChecksumMismatch)
  {
    hide ReplayTxs, ReplayFees, FeeChecksum, Appended, Body, MinerOf;
  }

  /** What the run knows of the block it mines and of the ledger it is replayed on. */
  lemma MinedFacts(s: State, miner: Bytes, r: State)
    requires Inv(s) && Pushes(s, miner) && CreditsFit(s, miner) && Dominates(s.accounts, r.accounts)
    ensures var b := PushedBlock(s, miner); var txs := SortedPool(s.mempool);
      && Sequenced(s) && MinesTo(s, miner, b, MineState(s, miner)) && SettlesExactly(s.accounts, txs)
      && AllDecompose(txs) && ReplayTxs(r.accounts, txs).Ok?
      && Fits(Settle(s.accounts, txs), miner, b.coinbaseConsumer, b.coinbaseIndustrial)
      && BalAt(ReplayTxs(r.accounts, txs).value, miner, Consumer) + b.coinbaseConsumer < TWO64
      && BalAt(ReplayTxs(r.accounts, txs).value, miner, Industrial) + b.coinbaseIndustrial < TWO64
  {
    var b := PushedBlock(s, miner);
    FittingStep(s, MineEvent(miner));
    PushedExtends(s, miner);
    InvSequences(s);
    PoolAdmitted(s);
    hide Inv, Pushes, CreditsFit, Dominates, SortedPool, PushedBlock, MineState, SettlesExactly, BlockHash,
      LeastNonce, Settle, ReplayTxs, BuiltFrom, Fits;
    MineConserves(s, miner, b, MineState(s, miner));
    VerifiedListReplays(r.accounts, SortedPool(s.mempool));
    MinerFits(s, r, miner, b);
  }

  /** Replaying a mined block succeeds exactly when its fees are all counted, and fails on the checksum when not. */
  lemma ReplayMinedBlock(s: State, miner: Bytes, r: State)
    requires Inv(s) && Pushes(s, miner) && CreditsFit(s, miner) && Dominates(s.accounts, r.accounts)
    requires ChecksumFaithful(r.accounts.Keys, SortedPool(s.mempool))
    ensures var b := PushedBlock(s, miner); var txs := SortedPool(s.mempool);
      && ReplayTxs(r.accounts, txs).Ok?
      && ReplayBlock(r, b) == if ListCounted(r.accounts.Keys, txs) then Ok(Appended(r, b, ReplayTxs(r.accounts, txs).value))
                              else Err(ChecksumMismatch)
  {
    hide Inv, Pushes, CreditsFit, Dominates, SortedPool, PushedBlock, MineState, SettlesExactly, FeeChecksum, MinesTo,
      Settle, Fits, ReplayTxs, ReplayFees, ListFee, UncountedFee, ListCounted, Minted, CollisionFree, ReplayBlock,
      Appended, Body, MinerOf, AllDecompose, Sequenced;
    var txs := SortedPool(s.mempool);
    var b := PushedBlock(s, miner);
    PushedShape(s, miner);
    MinedFacts(s, miner, r);
    ReplayFeesCounted(r.accounts, txs, Consumer);
    ReplayFeesCounted(r.accounts, txs, Industrial);
    CountedIff(r.accounts.Keys, txs);
    ChecksumsDiffer(ListFee(txs, Consumer), ListFee(txs, Industrial),
                    ReplayFees(r.accounts, txs, Consumer), ReplayFees(r.accounts, txs, Industrial));
    ReplayOutcome(r, b, ReplayFees(r.accounts, txs, Consumer), ReplayFees(r.accounts, txs, Industrial));
  }

  // ---- whole runs ----

  /** What an account was created with; an address is seeded at most once. */
  ghost function SeedAt(s: State, es: seq<Event>, a: Bytes, t: Token): nat {
    if es == [] then 0
    else
      var e := Last(es);
      if e.AddAccountEvent? && e.address == a && a !in Run(s, Init(es)).accounts
      then if t.Consumer? then e.consumer else e.industrial
      else SeedAt(s, Init(es), a, t)
  }

  /** What an address was left with by each debit ever mined from it. */
  ghost function RunDebits(s: State, es: seq<Event>, a: Bytes, t: Token): seq<nat> {
    if es == [] then []
    else RunDebits(s, Init(es), a, t) + EventDebits(Run(s, Init(es)), Last(es), a, t)
  }

  ghost function EventDebits(s: State, e: Event, a: Bytes, t: Token): seq<nat> {
    if Appends(s, e) then PostDebits(s.accounts, SortedPool(s.mempool), a, t) else []
  }

  ghost predicate ShortAt(d: u64, es: seq<Event>, r: State, a: Bytes, t: Token) {
    Short(Run(FreshState(d), es).accounts, r.accounts, a, t,
          Lowest(SeedAt(FreshState(d), es, a, t), RunDebits(FreshState(d), es, a, t)))
  }

  ghost predicate KnownAt(d: u64, es: seq<Event>, r: State, a: Bytes) {
    var s := Run(FreshState(d), es);
    NonceKnown(s.accounts, r.accounts, a, ChainKnown(s.chain, a))
  }

  ghost predicate SameCounters(s: State, r: State) {
    && r.chain == s.chain && r.blockHeight == s.blockHeight
    && r.accounts.Keys == CreditedBy(s.chain)
    && r.rewardConsumer == Decayed(InitialReward(Consumer), |s.chain|)
    && r.rewardIndustrial == Decayed(InitialReward(Industrial), |s.chain|)
  }

  /** What an import rebuilds of the run: its chain, height and reward schedule; each balance, short by the
      smaller of the address's seed and the least any of its debits left it with; and the nonce of each sender that the
      chain had credited before its last transaction. */
  ghost predicate Rebuilt(d: u64, es: seq<Event>, r: State) {
    && SameCounters(Run(FreshState(d), es), r)
    && (forall a, t :: ShortAt(d, es, r, a, t))
    && (forall a :: KnownAt(d, es, r, a))
  }

  ghost predicate Replays(d: u64, es: seq<Event>, node: State) {
    var chain := Run(FreshState(d), es).chain;
    var r := ReplayChain(Cleared(node), chain);
    if FeesCounted(chain) then r.Ok? && Rebuilt(d, es, r.value) else r == Err(ChecksumMismatch)
  }

  lemma FreshReplays(d: u64, node: State)
    ensures Replays(d, [], node)
  {
    forall a, t
      ensures ShortAt(d, [], Cleared(node), a, t)
    {
      assert RunDebits(FreshState(d), [], a, t) == [];
    }
  }

  lemma RebuiltDominates(d: u64, es: seq<Event>, r: State)
    requires Rebuilt(d, es, r)
    ensures Dominates(Run(FreshState(d), es).accounts, r.accounts)
  {
    hide Run, SameCounters, KnownAt, Lowest;
    forall a, t
      ensures BalAt(r.accounts, a, t) <= BalAt(Run(FreshState(d), es).accounts, a, t)
    {
      assert ShortAt(d, es, r, a, t);
    }
  }

  lemma NextBlockShort(d: u64, es: seq<Event>, r: State, accts: Accounts, a: Bytes, t: Token)
    requires es != [] && Appends(Run(FreshState(d), Init(es)), Last(es))
    requires var s := Run(FreshState(d), Init(es));
      && MinesTo(s, Last(es).miner, PushedBlock(s, Last(es).miner), Step(s, Last(es)))
      && SettlesExactly(s.accounts, SortedPool(s.mempool))
      && Fits(Settle(s.accounts, SortedPool(s.mempool)), Last(es).miner, PushedBlock(s, Last(es).miner).coinbaseConsumer,
              PushedBlock(s, Last(es).miner).coinbaseIndustrial)
      && ReplayTxs(r.accounts, SortedPool(s.mempool)) == Ok(accts)
    requires ShortAt(d, Init(es), r, a, t)
    ensures ShortAt(d, es, Appended(r, PushedBlock(Run(FreshState(d), Init(es)), Last(es).miner), accts), a, t)
  {
    var s := Run(FreshState(d), Init(es));
    var b := PushedBlock(s, Last(es).miner);
    var txs := SortedPool(s.mempool);
    var m := Lowest(SeedAt(FreshState(d), Init(es), a, t), RunDebits(FreshState(d), Init(es), a, t));
    PushedShape(s, Last(es).miner);
    hide Appends, SortedPool, PushedBlock, Step, Extends, SettlesExactly, Fits, Short, Credit, Settle, ReplayTxs,
      Lowest, PostDebits, MinerOf;
    ReplayShortfall(s.accounts, r.accounts, txs, a, t, m);
    LowestAppend(SeedAt(FreshState(d), Init(es), a, t), RunDebits(FreshState(d), Init(es), a, t),
                 PostDebits(s.accounts, txs, a, t));
    CreditShort(Settle(s.accounts, txs), accts, Last(es).miner, b.coinbaseConsumer, b.coinbaseIndustrial, a, t,
                Lowest(m, PostDebits(s.accounts, txs, a, t)));
  }

  lemma CreditKnown(x: Accounts, y: Accounts, to: Bytes, consumer: u64, industrial: u64, a: Bytes, known: bool)
    requires NonceKnown(x, y, a, known)
    ensures NonceKnown(Credit(x, to, consumer, industrial), Credit(y, to, consumer, industrial), a, known)
  {
  }

  lemma NextBlockKnown(d: u64, es: seq<Event>, r: State, accts: Accounts, a: Bytes)
    requires es != [] && Appends(Run(FreshState(d), Init(es)), Last(es))
    requires var s := Run(FreshState(d), Init(es));
      && Sequenced(s)
      && MinesTo(s, Last(es).miner, PushedBlock(s, Last(es).miner), Step(s, Last(es)))
      && ReplayTxs(r.accounts, SortedPool(s.mempool)) == Ok(accts)
      && r.accounts.Keys == CreditedBy(s.chain)
    requires KnownAt(d, Init(es), r, a)
    ensures KnownAt(d, es, Appended(r, PushedBlock(Run(FreshState(d), Init(es)), Last(es).miner), accts), a)
  {
    var s := Run(FreshState(d), Init(es));
    var b := PushedBlock(s, Last(es).miner);
    var txs := SortedPool(s.mempool);
    AppendStep(s, Last(es));
    PooledSenders(s);
    PushedShape(s, Last(es).miner);
    hide Sequenced, Appends, Pushes, SortedPool, PushedBlock, Step, Extends, Settle, ReplayTxs, LastKnown, CreditedBy,
      MinerOf, NonceKnown, Credit, Minted, ListFee, FeeChecksum;
    ReplayNonce(s.accounts, r.accounts, txs, a, ChainKnown(s.chain, a));
    CreditKnown(Settle(s.accounts, txs), accts, Last(es).miner, b.coinbaseConsumer, b.coinbaseIndustrial, a,
                LastKnown(r.accounts.Keys, txs, a, ChainKnown(s.chain, a)));
  }

  lemma NextBlockCounters(s: State, e: Event, r: State, accts: Accounts)
    requires Appends(s, e) && MinesTo(s, e.miner, PushedBlock(s, e.miner), Step(s, e))
    requires SameCounters(s, r) && ReplayTxs(r.accounts, SortedPool(s.mempool)) == Ok(accts)
    ensures SameCounters(Step(s, e), Appended(r, PushedBlock(s, e.miner), accts))
  {
    AppendStep(s, e);
    PushedShape(s, e.miner);
    ReplayKeys(r.accounts, SortedPool(s.mempool));
    CreditKeys(accts, e.miner, PushedBlock(s, e.miner).coinbaseConsumer, PushedBlock(s, e.miner).coinbaseIndustrial);
    hide Appends, Pushes, SortedPool, PushedBlock, Step, ReplayTxs, Recipients, MinerOf, Decay, Extends, Settle,
      Credit, Minted, ListFee, FeeChecksum, Body;
  }

  lemma CreditKeys(accts: Accounts, a: Bytes, consumer: u64, industrial: u64)
    ensures Credit(accts, a, consumer, industrial).Keys == accts.Keys + {a}
  {
  }

  lemma NextBlockRebuilt(d: u64, es: seq<Event>, r: State, accts: Accounts)
    requires es != [] && Appends(Run(FreshState(d), Init(es)), Last(es))
    requires var s := Run(FreshState(d), Init(es));
      && Inv(s) && CreditsFit(s, Last(es).miner)
      && ReplayTxs(r.accounts, SortedPool(s.mempool)) == Ok(accts)
    requires Rebuilt(d, Init(es), r)
    ensures Rebuilt(d, es, Appended(r, PushedBlock(Run(FreshState(d), Init(es)), Last(es).miner), accts))
  {
    var s := Run(FreshState(d), Init(es));
    var b := PushedBlock(s, Last(es).miner);
    RebuiltDominates(d, Init(es), r);
    MinedFacts(s, Last(es).miner, r);
    var r' := Appended(r, b, accts);
    assert r.accounts.Keys == CreditedBy(s.chain);
    assert r'.accounts == Credit(accts, MinerOf(b), b.coinbaseConsumer, b.coinbaseIndustrial);
    hide Inv, CreditsFit, Appends, PushedBlock, Step, Sequenced, SortedPool, MinesTo, SettlesExactly, Fits, ReplayTxs,
      ShortAt, KnownAt, SameCounters, Dominates, Settle, Appended, CreditedBy, Credit, MinerOf;
    NextBlockCounters(s, Last(es), r, accts);
    forall a, t
      ensures ShortAt(d, es, r', a, t)
    {
      assert ShortAt(d, Init(es), r, a, t);
      NextBlockShort(d, es, r, accts, a, t);
    }
    forall a
      ensures KnownAt(d, es, r', a)
    {
      assert KnownAt(d, Init(es), r, a);
      NextBlockKnown(d, es, r, accts, a);
    }
  }

  lemma AppendReplays(d: u64, es: seq<Event>, node: State)
    requires es != [] && Appends(Run(FreshState(d), Init(es)), Last(es))
    requires Inv(Run(FreshState(d), Init(es))) && CreditsFit(Run(FreshState(d), Init(es)), Last(es).miner)
    requires NoChecksumCollisions(Run(FreshState(d), es).chain) && Replays(d, Init(es), node)
    ensures Replays(d, es, node)
  {
    var s := Run(FreshState(d), Init(es));
    var miner := Last(es).miner;
    var chain := Run(FreshState(d), es).chain;
    AppendStep(s, Last(es));
    if FeesCounted(s.chain) {
      var r := ReplayChain(Cleared(node), s.chain).value;
      RebuiltDominates(d, Init(es), r);
      RebuiltKeys(d, Init(es), r);
      hide Inv, Appends, Pushes, CreditsFit, Dominates, SortedPool, PushedBlock, Step, ReplayTxs, ReplayBlock,
        Appended, Rebuilt, ListCounted, ChecksumFaithful, Extends, Body;
      ReplayMinedBlock(s, miner, r);
      if ListCounted(r.accounts.Keys, SortedPool(s.mempool)) {
        NextBlockRebuilt(d, es, r, ReplayTxs(r.accounts, SortedPool(s.mempool)).value);
      }
    }
  }

  lemma RebuiltKeys(d: u64, es: seq<Event>, r: State)
    requires Rebuilt(d, es, r)
    ensures r.accounts.Keys == CreditedBy(Run(FreshState(d), es).chain)
  {
  }

  // ---- between blocks ----

  lemma {:induction false} PostDebitsNeedAccount(accts: Accounts, txs: seq<SignedTransaction>, a: Bytes, t: Token)
    requires a !in Settle(accts, txs)
    ensures PostDebits(accts, txs, a, t) == [] && a !in accts
    decreases |txs|
  {
    if txs != [] {
      PostDebitsNeedAccount(SettleOne(accts, txs[0]), txs[1..], a, t);
      SettleOneKeys(accts, txs[0]);
    }
  }

  lemma StepDebitsNeedAccount(s: State, e: Event, a: Bytes, t: Token)
    requires SearchEnds(s, e) && a !in Step(s, e).accounts
    ensures a !in s.accounts && EventDebits(s, e, a, t) == []
  {
    if Appends(s, e) {
      AppendStep(s, e);
      hide Appends, Step, SortedPool, PushedBlock, BuiltFrom, LeastNonce, BlockHash, Settle;
      PostDebitsNeedAccount(s.accounts, SortedPool(s.mempool), a, t);
    } else {
      QuietKeysGrow(s, e);
      hide Step, Appends, SearchEnds;
    }
  }

  lemma QuietKeysGrow(s: State, e: Event)
    requires SearchEnds(s, e) && !Appends(s, e)
    ensures s.accounts.Keys <= Step(s, e).accounts.Keys
  {
    QuietStep(s, e);
    hide SearchEnds, Appends, VerifySignedTx, Covers, MineState, Cost;
  }

  lemma {:induction false} NoDebitsBefore(s: State, es: seq<Event>, a: Bytes, t: Token)
    requires SearchesEnd(s, es) && a !in Run(s, es).accounts
    ensures RunDebits(s, es, a, t) == []
  {
    if es != [] {
      hide SearchEnds, Step, EventDebits;
      StepDebitsNeedAccount(Run(s, Init(es)), Last(es), a, t);
      NoDebitsBefore(s, Init(es), a, t);
    }
  }

  lemma QuietBalance(s: State, e: Event, a: Bytes, t: Token)
    requires SearchEnds(s, e) && !Appends(s, e)
    ensures BalAt(Step(s, e).accounts, a, t)
            == if e.AddAccountEvent? && e.address == a && a !in s.accounts then SeedOf(s, e, t) else BalAt(s.accounts, a, t)
  {
    QuietStep(s, e);
    if e.MineEvent? {
      hide Step;
    }
  }

  lemma QuietShort(d: u64, es: seq<Event>, r: State, a: Bytes, t: Token)
    requires es != [] && SearchesEnd(FreshState(d), es) && !Appends(Run(FreshState(d), Init(es)), Last(es))
    requires ShortAt(d, Init(es), r, a, t)
    ensures ShortAt(d, es, r, a, t)
  {
    hide SearchEnds, Appends, Step, PostDebits, Lowest;
    var s := Run(FreshState(d), Init(es));
    var e := Last(es);
    QuietBalance(s, e, a, t);
    assert RunDebits(FreshState(d), es, a, t) == RunDebits(FreshState(d), Init(es), a, t);
    if e.AddAccountEvent? && e.address == a && a !in s.accounts {
      NoDebitsBefore(FreshState(d), Init(es), a, t);
      SeedAlone(SeedOf(s, e, t));
    }
  }

  lemma SeedAlone(m: nat)
    ensures Lowest(m, []) == m
  {
  }

  lemma QuietReplays(d: u64, es: seq<Event>, node: State)
    requires es != [] && SearchesEnd(FreshState(d), es) && !Appends(Run(FreshState(d), Init(es)), Last(es))
    requires Replays(d, Init(es), node)
    ensures Replays(d, es, node)
  {
    var s := Run(FreshState(d), Init(es));
    QuietStep(s, Last(es));
    hide Appends, SearchEnds, ShortAt, Step, ReplayChain, FeesCounted, ChainKnown, CreditedBy;
    if FeesCounted(s.chain) {
      var r := ReplayChain(Cleared(node), s.chain).value;
      forall a, t
        ensures ShortAt(d, es, r, a, t)
      {
        assert ShortAt(d, Init(es), r, a, t);
        QuietShort(d, es, r, a, t);
      }
      forall a
        ensures KnownAt(d, es, r, a)
      {
        assert KnownAt(d, Init(es), r, a);
        QuietStepKeepsNonce(s, Last(es), a);
      }
    }
  }

  /** The chain of a run replays exactly when its fees are counted, and then rebuilds what `Rebuilt` says. */
  lemma {:induction false} ReplayRun(d: u64, es: seq<Event>, node: State)
    requires Admissible(d, es)
    requires NoChecksumCollisions(Run(FreshState(d), es).chain)
    ensures Replays(d, es, node)
  {
    hide Inv, Replays, NoChecksumCollisions, NoncesWithin, SearchEnds, CreditsFit, Appends, Step;
    if es == [] {
      FreshReplays(d, node);
    } else {
      var s := Run(FreshState(d), Init(es));
      RunReserves(d, Init(es));
      if Appends(s, Last(es)) {
        AppendStep(s, Last(es));
        ChecksumsInit(Step(s, Last(es)).chain);
        ReplayRun(d, Init(es), node);
        AppendedIsMine(s, Last(es));
        AppendReplays(d, es, node);
      } else {
        QuietStep(s, Last(es));
        ReplayRun(d, Init(es), node);
        QuietReplays(d, es, node);
      }
    }
  }

  lemma AppendedIsMine(s: State, e: Event)
    requires Appends(s, e)
    ensures e.MineEvent? && Pushes(s, e.miner)
  {
  }

  lemma ChecksumsInit(chain: seq<Block>)
    requires chain != [] && NoChecksumCollisions(chain)
    ensures NoChecksumCollisions(Init(chain))
  {
  }

  lemma ReplayedBlock(s: State, b: Block)
    requires ReplayBlock(s, b).Ok?
    ensures ReplayBlock(s, b).value == Appended(s, b, ReplayTxs(s.accounts, Body(b)).value)
    ensures ReplayTxs(s.accounts, Body(b)).Ok?
    ensures var accts := ReplayTxs(s.accounts, Body(b)).value;
      Fits(accts, MinerOf(b), b.coinbaseConsumer, b.coinbaseIndustrial)
  {
    hide ReplayTxs, ReplayFees, FeeChecksum, Appended, Body, MinerOf;
  }

  lemma {:induction false} ReplayLeavesMempool(s: State, blocks: seq<Block>)
    ensures var r := ReplayChain(s, blocks);
      r.Ok? ==> r.value.mempool == s.mempool && r.value.difficulty == s.difficulty
  {
    hide ReplayBlock;
    if blocks != [] {
      ReplayLeavesMempool(s, Init(blocks));
      if ReplayChain(s, blocks).Ok? {
        ReplayedBlock(ReplayChain(s, Init(blocks)).value, Last(blocks));
      }
    }
  }

  // ---- how an import can fail ----

  lemma {:induction false} ReplayFeesWithin(accts: Accounts, txs: seq<SignedTransaction>, t: Token)
    ensures ReplayFees(accts, txs, t) <= ListFee(txs, t)
    decreases |txs|
  {
    ReplayFeesCounted(accts, txs, t);
  }

  lemma ValidBlockReplayErrors(s: State, b: Block, prev: Bytes, difficulty: nat)
    requires ValidBlock(b, prev, difficulty)
    ensures var r := ReplayBlock(s, b); r.Err? ==> r.error.ChecksumMismatch? || r.error.MinerBalanceOverflow?
  {
    hide BlockHash, MeetsTarget, FeeChecksum, ReplayTxs, ReplayFees, VerifySignedTx, NonceFollows, TxId;
    var txs := b.transactions[1..];
    ValidBodyParts(txs);
    VerifiedListReplays(s.accounts, txs);
    ReplayFeesWithin(s.accounts, txs, Consumer);
    ReplayFeesWithin(s.accounts, txs, Industrial);
  }

  /** Once a chain is valid, replay can fail only on a block's fee checksum or by overflowing a miner's balance:
      its signature, fee-cover and coinbase checks repeat what validation settled. */
  lemma {:induction false} ValidChainReplayErrors(s: State, blocks: seq<Block>, difficulty: nat)
    requires ValidChain(blocks, difficulty)
    ensures var r := ReplayChain(s, blocks); r.Err? ==> r.error.ChecksumMismatch? || r.error.MinerBalanceOverflow?
  {
    hide ReplayBlock, ValidBlock;
    if blocks != [] {
      var n := |blocks| - 1;
      assert ValidBlock(blocks[n], PreviousHash(blocks[..n]), difficulty);
      forall i | 0 <= i < n
        ensures ValidBlock(Init(blocks)[i], PreviousHash(Init(blocks)[..i]), difficulty)
      {
        assert Init(blocks)[..i] == blocks[..i];
        assert ValidBlock(blocks[i], PreviousHash(blocks[..i]), difficulty);
      }
      ValidChainReplayErrors(s, Init(blocks), difficulty);
      if ReplayChain(s, Init(blocks)).Ok? {
        ValidBlockReplayErrors(ReplayChain(s, Init(blocks)).value, blocks[n], PreviousHash(blocks[..n]), difficulty);
      }
    }
  }
}
