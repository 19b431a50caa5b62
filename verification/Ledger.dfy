/** The ledger's state and what each operation does to it (src/lib.rs). */
module Ledger {
  import opened Machine
  import opened Fee
  import opened Crypto
  import opened Transaction
  import opened HashLayout
  import opened ProofOfWork
  import opened Order

  /** `"0".repeat(34)`: the sender of a coinbase. */
  const COINBASE: Bytes := Repeat(48, 34)

  const MAX_SUPPLY: u64 := 20_000_000_000_000
  const DECAY_NUMERATOR: u64 := 99_995
  const DECAY_DENOMINATOR: u64 := 100_000

  function InitialReward(t: Token): u64 {
    if t.Consumer? then 60_000 else 30_000
  }

  // ---- entities ----

  datatype TokenBalance = TokenBalance(consumer: u64, industrial: u64)

  datatype Account = Account(
    address: Bytes,
    balance: TokenBalance,
    nonce: u64,
    pendingConsumer: u64,
    pendingIndustrial: u64,
    pendingNonce: u64)

  type Accounts = map<Bytes, Account>

  datatype Block = Block(
    index: u64,
    previousHash: Bytes,
    transactions: seq<SignedTransaction>,
    difficulty: u64,
    nonce: u64,
    hash: Bytes,
    coinbaseConsumer: u64,
    coinbaseIndustrial: u64,
    feeChecksum: Bytes)

  datatype State = State(
    chain: seq<Block>,
    accounts: Accounts,
    difficulty: u64,
    mempool: Pool,
    emissionConsumer: u64,
    emissionIndustrial: u64,
    rewardConsumer: u64,
    rewardIndustrial: u64,
    blockHeight: u64)

  function Bal(acc: Account, t: Token): u64 {
    if t.Consumer? then acc.balance.consumer else acc.balance.industrial
  }

  function Pend(acc: Account, t: Token): u64 {
    if t.Consumer? then acc.pendingConsumer else acc.pendingIndustrial
  }

  /** The balance at an address; a missing account holds nothing. */
  function BalAt(accts: Accounts, a: Bytes, t: Token): u64 {
    if a in accts then Bal(accts[a], t) else 0
  }

  function Emission(s: State, t: Token): u64 {
    if t.Consumer? then s.emissionConsumer else s.emissionIndustrial
  }

  function Reward(s: State, t: Token): u64 {
    if t.Consumer? then s.rewardConsumer else s.rewardIndustrial
  }

  /** A node whose database is empty. */
  function FreshState(difficulty: u64): State {
    State([], map[], difficulty, map[], 0, 0, InitialReward(Consumer), InitialReward(Industrial), 0)
  }

  function NewAccount(a: Bytes, consumer: u64, industrial: u64): Account {
    Account(a, TokenBalance(consumer, industrial), 0, 0, 0, 0)
  }

  /** A `Vec`'s length as a machine word. */
  function Len64(n: nat): u64 {
    if n < TWO64 then n else 0
  }

  // ---- accounts and mempool ----

  datatype AccountError = AccountExists

  function AddAccount(s: State, a: Bytes, consumer: u64, industrial: u64): Result<State, AccountError> {
    if a in s.accounts then Err(AccountExists)
    else Ok(s.(accounts := s.accounts[a := NewAccount(a, consumer, industrial)]))
  }

  datatype SubmitError =
    | DuplicateTransaction
    | BadSelector
    | SenderNotFound
    | FeeRejected(e: FeeError)
    | InsufficientBalance
    | BadNonce
    | SignatureFailed

  function Reserve(acc: Account, tx: SignedTransaction): Account {
    acc.(pendingConsumer := Add64(acc.pendingConsumer, Cost(tx, Consumer)),
         pendingIndustrial := Add64(acc.pendingIndustrial, Cost(tx, Industrial)),
         pendingNonce := Add64(acc.pendingNonce, 1))
  }

  predicate Covers(acc: Account, tx: SignedTransaction, t: Token) {
    SatSub(Bal(acc, t), Pend(acc, t)) >= Cost(tx, t)
  }

  function NextNonce(acc: Account): u64 {
    Add64(Add64(acc.nonce, acc.pendingNonce), 1)
  }

  function Submit(s: State, tx: SignedTransaction): Result<State, SubmitError> {
    var from_ := tx.payload.from_;
    if KeyOf(tx) in s.mempool then Err(DuplicateTransaction)
    else if tx.payload.feeSelector > 2 then Err(BadSelector)
    else if from_ !in s.accounts then Err(SenderNotFound)
    else
      match Decompose(tx.payload.feeSelector, tx.payload.fee)
      case Err(e) => Err(FeeRejected(e))
      case Ok(_) =>
        var sender := s.accounts[from_];
        if !Covers(sender, tx, Consumer) || !Covers(sender, tx, Industrial) then Err(InsufficientBalance)
        else if tx.payload.nonce != NextNonce(sender) then Err(BadNonce)
        else if !VerifySignedTx(tx) then Err(SignatureFailed)
        else Ok(s.(accounts := s.accounts[from_ := Reserve(sender, tx)],
                   mempool := s.mempool[KeyOf(tx) := tx]))
  }

  datatype DropError = TransactionNotFound

  function Release(acc: Account, tx: SignedTransaction): Account {
    acc.(pendingConsumer := SatSub(acc.pendingConsumer, Cost(tx, Consumer)),
         pendingIndustrial := SatSub(acc.pendingIndustrial, Cost(tx, Industrial)),
         pendingNonce := SatSub(acc.pendingNonce, 1))
  }

  function Drop(s: State, sender: Bytes, nonce: u64): Result<State, DropError> {
    var k := Key(sender, nonce);
    if k !in s.mempool then Err(TransactionNotFound)
    else
      var tx := s.mempool[k];
      var s' := s.(mempool := s.mempool - {k});
      if sender in s.accounts && Decompose(tx.payload.feeSelector, tx.payload.fee).Ok?
      then Ok(s'.(accounts := s.accounts[sender := Release(s.accounts[sender], tx)]))
      else Ok(s')
  }

  // ---- settlement ----

  function DebitAccount(acc: Account, tx: SignedTransaction): Account {
    Release(acc, tx).(
      balance := TokenBalance(SatSub(acc.balance.consumer, Cost(tx, Consumer)),
                              SatSub(acc.balance.industrial, Cost(tx, Industrial))),
      nonce := tx.payload.nonce)
  }

  function Debit(accts: Accounts, tx: SignedTransaction): Accounts {
    var from_ := tx.payload.from_;
    if from_ != COINBASE && from_ in accts then accts[from_ := DebitAccount(accts[from_], tx)] else accts
  }

  function Credited(acc: Account, consumer: u64, industrial: u64): Account {
    acc.(balance := TokenBalance(Add64(acc.balance.consumer, consumer), Add64(acc.balance.industrial, industrial)))
  }

  /** `entry(a).or_insert(empty)` and a balance increase. */
  function Credit(accts: Accounts, a: Bytes, consumer: u64, industrial: u64): Accounts {
    var acc := if a in accts then accts[a] else NewAccount(a, 0, 0);
    accts[a := Credited(acc, consumer, industrial)]
  }

  function SettleOne(accts: Accounts, tx: SignedTransaction): Accounts {
    Credit(Debit(accts, tx), tx.payload.to, tx.payload.amountConsumer, tx.payload.amountIndustrial)
  }

  function Settle(accts: Accounts, txs: seq<SignedTransaction>): Accounts
    decreases |txs|
  {
    if txs == [] then accts else Settle(SettleOne(accts, txs[0]), txs[1..])
  }

  // ---- mining ----

  /** One step of reward decay, in u128. */
  function Decay(reward: u64): u64 {
    reward * DECAY_NUMERATOR / DECAY_DENOMINATOR
  }

  /** The part of `reward` that keeps emission within the maximum supply. */
  function Clamp(emission: u64, reward: u64): u64 {
    if Add64(emission, reward) > MAX_SUPPLY then Sub64(MAX_SUPPLY, emission) else reward
  }

  /** What the next block adds to emission. */
  function Minted(s: State, t: Token): u64 {
    Clamp(Emission(s, t), Decay(Reward(s, t)))
  }

  ghost function ListFee(txs: seq<SignedTransaction>, t: Token): nat {
    if txs == [] then 0 else FeeOf(txs[0], t) + ListFee(txs[1..], t)
  }

  function Ids(txs: seq<SignedTransaction>): seq<seq<byte>> {
    seq(|txs|, i requires 0 <= i < |txs| => TxId(txs[i]))
  }

  function EncoderOf(b: Block): BlockEncoder {
    BlockEncoder(b.index, b.previousHash, b.nonce, b.difficulty, b.coinbaseConsumer, b.coinbaseIndustrial,
                 b.feeChecksum, Ids(b.transactions))
  }

  /** `calculate_hash` of the block's fields. */
  ghost function BlockHash(b: Block): (h: Bytes)
    ensures |h| == 64
  {
    EncoderOf(b).HashHex()
  }

  /** The proof-of-work test on a header. */
  ghost predicate MeetsTarget(e: BlockEncoder, target: nat) {
    LeadingZeroBits(Blake3(e.Preimage())) >= target
  }

  /** The nonce loop: try `n`, `n + 1`, … up to the last machine word. */
  ghost function FirstNonce(e: BlockEncoder, target: nat, n: nat): Option<u64>
    requires n <= TWO64
    decreases TWO64 - n
  {
    if n == TWO64 then None
    else if MeetsTarget(e.(nonce := n), target) then Some(n)
    else FirstNonce(e, target, n + 1)
  }

  /** `k` is the least nonce from `n` on that meets the target. */
  ghost predicate LeastNonce(e: BlockEncoder, target: nat, n: nat, k: u64) {
    && n <= k
    && MeetsTarget(e.(nonce := k), target)
    && forall m: u64 | n <= m < k :: !MeetsTarget(e.(nonce := m), target)
  }

  /** The loop yields the least nonce that meets the target, and none exactly when no nonce does. */
  lemma {:induction false} FirstNonceIsLeast(e: BlockEncoder, target: nat, n: nat)
    requires n <= TWO64
    ensures match FirstNonce(e, target, n)
            case None => forall m: u64 | n <= m :: !MeetsTarget(e.(nonce := m), target)
            case Some(k) => LeastNonce(e, target, n, k)
    decreases TWO64 - n
  {
    if n < TWO64 && !MeetsTarget(e.(nonce := n), target) {
      FirstNonceIsLeast(e, target, n + 1);
    }
  }

  lemma LeastNonceOfSealed(e: BlockEncoder, target: nat, n: nat, k: u64)
    requires LeastNonce(e, target, n, k)
    ensures LeastNonce(e.(nonce := k), target, n, k)
  {
  }

  datatype MineError = FeeOverflow | NonceOverflow | MinerOverflow

  function PreviousHash(chain: seq<Block>): Bytes {
    if chain == [] then ZERO_HASH else chain[|chain| - 1].hash
  }

  function CoinbaseTx(miner: Bytes, consumer: u64, industrial: u64): SignedTransaction {
    SignedTransaction(RawTxPayload(COINBASE, miner, consumer, industrial, 0, 0, 0, []), [], [])
  }

  /** The block before the nonce search. */
  ghost function Candidate(s: State, miner: Bytes): Result<Block, MineError> {
    var txs := SortedPool(s.mempool);
    var feeC, feeI := ListFee(txs, Consumer), ListFee(txs, Industrial);
    var cbC, cbI := Minted(s, Consumer) + feeC, Minted(s, Industrial) + feeI;
    if cbC >= TWO64 || cbI >= TWO64 then Err(FeeOverflow)
    else Ok(Block(Len64(|s.chain|), PreviousHash(s.chain), [CoinbaseTx(miner, cbC, cbI)] + txs,
                  s.difficulty, 0, [], cbC, cbI, FeeChecksum(feeC, feeI)))
  }

  ghost function Sealed(b: Block, n: u64): Block {
    b.(nonce := n, hash := EncoderOf(b).(nonce := n).HashHex())
  }

  /** `mine_block`'s answer. */
  ghost function MineOutcome(s: State, miner: Bytes): Result<Block, MineError> {
    match Candidate(s, miner)
    case Err(e) => Err(e)
    case Ok(b) =>
      match FirstNonce(EncoderOf(b), s.difficulty % TWO32, 0)
      case None => Err(NonceOverflow)
      case Some(n) =>
        var settled := Settle(s.accounts, b.transactions[1..]);
        if || BalAt(settled, miner, Consumer) + b.coinbaseConsumer >= TWO64
           || BalAt(settled, miner, Industrial) + b.coinbaseIndustrial >= TWO64
        then Err(MinerOverflow)
        else Ok(Sealed(b, n))
  }

  /** The state `mine_block` leaves, whatever its answer. The decayed rewards stay even when it fails; the
      mempool is gone once the nonce search has started; a miner whose balance overflows makes it panic with
      the block pushed and settled. */
  ghost function MineState(s: State, miner: Bytes): State {
    var decayed := s.(rewardConsumer := Decay(s.rewardConsumer), rewardIndustrial := Decay(s.rewardIndustrial));
    match Candidate(s, miner)
    case Err(_) => decayed
    case Ok(c) =>
      match FirstNonce(EncoderOf(c), s.difficulty % TWO32, 0)
      case None => decayed.(mempool := map[])
      case Some(n) =>
        var b := Sealed(c, n);
        var settled := Settle(s.accounts, b.transactions[1..]);
        var pushed := decayed.(mempool := map[], chain := s.chain + [b]);
        if BalAt(settled, miner, Consumer) + b.coinbaseConsumer >= TWO64 then
          pushed.(accounts := Credit(settled, miner, 0, 0))
        else if BalAt(settled, miner, Industrial) + b.coinbaseIndustrial >= TWO64 then
          pushed.(accounts := Credit(settled, miner, b.coinbaseConsumer, 0))
        else
          pushed.(accounts := Credit(settled, miner, b.coinbaseConsumer, b.coinbaseIndustrial),
                  emissionConsumer := Add64(s.emissionConsumer, Minted(s, Consumer)),
                  emissionIndustrial := Add64(s.emissionIndustrial, Minted(s, Industrial)),
                  blockHeight := Add64(s.blockHeight, 1))
  }

  /** The header, coinbase and transaction list that the miner puts together from a state. */
  ghost predicate BuiltFrom(b: Block, s: State, miner: Bytes) {
    var txs := SortedPool(s.mempool);
    && b.index == Len64(|s.chain|) && b.previousHash == PreviousHash(s.chain) && b.difficulty == s.difficulty
    && b.coinbaseConsumer == Minted(s, Consumer) + ListFee(txs, Consumer)
    && b.coinbaseIndustrial == Minted(s, Industrial) + ListFee(txs, Industrial)
    && b.feeChecksum == FeeChecksum(ListFee(txs, Consumer), ListFee(txs, Industrial))
    && b.transactions == [CoinbaseTx(miner, b.coinbaseConsumer, b.coinbaseIndustrial)] + txs
  }

  /** The candidate is built and its nonce search ends: `mine_block` appends a block, whatever comes after. */
  ghost predicate Pushes(s: State, miner: Bytes) {
    && Candidate(s, miner).Ok?
    && FirstNonce(EncoderOf(Candidate(s, miner).value), s.difficulty % TWO32, 0).Some?
  }

  ghost function PushedBlock(s: State, miner: Bytes): Block
    requires Pushes(s, miner)
  {
    var c := Candidate(s, miner).value;
    Sealed(c, FirstNonce(EncoderOf(c), s.difficulty % TWO32, 0).value)
  }

  /** `b` extends `s` to `s'`: appended, settled and, at least in part, paid to the miner. */
  ghost predicate Extends(s: State, miner: Bytes, b: Block, s': State) {
    && BuiltFrom(b, s, miner)
    && b.hash == BlockHash(b)
    && LeastNonce(EncoderOf(b), s.difficulty % TWO32, 0, b.nonce)
    && s'.chain == s.chain + [b]
    && (exists consumer: u64, industrial: u64 ::
          s'.accounts == Credit(Settle(s.accounts, SortedPool(s.mempool)), miner, consumer, industrial))
    && s'.difficulty == s.difficulty
    && s'.mempool == map[]
  }

  /** A successful `mine_block`: the miner is paid in full, and the counters move on. */
  ghost predicate MinesTo(s: State, miner: Bytes, b: Block, s': State) {
    && Extends(s, miner, b, s')
    && s'.accounts == Credit(Settle(s.accounts, SortedPool(s.mempool)), miner, b.coinbaseConsumer, b.coinbaseIndustrial)
    && s'.emissionConsumer == Add64(s.emissionConsumer, Minted(s, Consumer))
    && s'.emissionIndustrial == Add64(s.emissionIndustrial, Minted(s, Industrial))
    && s'.rewardConsumer == Decay(s.rewardConsumer)
    && s'.rewardIndustrial == Decay(s.rewardIndustrial)
    && s'.blockHeight == Add64(s.blockHeight, 1)
  }

  /** An appended block is built from the state it extends, is hashed over its own fields, and carries the least
      nonce that meets the target: also when the miner's balance then overflows. */
  lemma PushedExtends(s: State, miner: Bytes)
    requires Pushes(s, miner)
    ensures Extends(s, miner, PushedBlock(s, miner), MineState(s, miner))
  {
    hide LeastNonce, FirstNonce, SortedPool, FeeChecksum, Settle;
    var c := Candidate(s, miner).value;
    var b := PushedBlock(s, miner);
    assert BuiltFrom(c, s, miner);
    assert BuiltFrom(b, s, miner);
    SealedByLeastNonce(c, s.difficulty % TWO32, b.nonce);
    assert b.transactions[1..] == SortedPool(s.mempool);
  }

  /** A successful mine appends that block and leaves the state the relation describes. */
  lemma MinedBlock(s: State, miner: Bytes)
    requires MineOutcome(s, miner).Ok?
    ensures Pushes(s, miner) && MineOutcome(s, miner) == Ok(PushedBlock(s, miner))
    ensures MinesTo(s, miner, PushedBlock(s, miner), MineState(s, miner))
  {
    PushedExtends(s, miner);
    hide Extends, LeastNonce, FirstNonce, SortedPool, FeeChecksum, Settle;
    assert PushedBlock(s, miner).transactions[1..] == SortedPool(s.mempool) by {
      assert Candidate(s, miner).value.transactions[1..] == SortedPool(s.mempool);
    }
  }

  lemma SealedByLeastNonce(c: Block, target: nat, n: u64)
    requires FirstNonce(EncoderOf(c), target, 0) == Some(n)
    ensures var b := Sealed(c, n); b.hash == BlockHash(b) && LeastNonce(EncoderOf(b), target, 0, n)
  {
    var e := EncoderOf(c);
    FirstNonceIsLeast(e, target, 0);
    LeastNonceOfSealed(e, target, 0, n);
    assert EncoderOf(Sealed(c, n)) == e.(nonce := n);
  }
}
