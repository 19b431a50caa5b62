/** What `submit_transaction` admits, in unbounded arithmetic (src/lib.rs:533-582; CONSENSUS.md, "Overflow Guard"). */
module Admission {
  import opened Machine
  import opened Fee
  import opened Transaction
  import opened Order
  import opened Ledger
  import opened Settlement
  import opened Reservation

  /** The sender can pay for everything pending and for this transaction too, in each token. */
  ghost predicate Affords(acc: Account, p: RawTxPayload) {
    && acc.pendingConsumer + p.amountConsumer + ConsumerFee(p) <= acc.balance.consumer
    && acc.pendingIndustrial + p.amountIndustrial + (p.fee - ConsumerFee(p)) <= acc.balance.industrial
  }

  /** What is pending is covered: so it is at every address where every credit has fitted
      (`Runs.ReservationsInEveryState`). */
  ghost predicate Solvent(acc: Account) {
    Pend(acc, Consumer) <= Bal(acc, Consumer) && Pend(acc, Industrial) <= Bal(acc, Industrial)
  }

  lemma CoversIffAffords(acc: Account, tx: SignedTransaction)
    requires Guarded(tx) && Solvent(acc) && Decompose(tx.payload.feeSelector, tx.payload.fee).Ok?
    ensures Covers(acc, tx, Consumer) && Covers(acc, tx, Industrial) <==> Affords(acc, tx.payload)
  {
    FeeInTokens(tx);
    hide Decompose, FeeOf, ConsumerFee;
  }

  /** Which rejection a transaction gets: the first of these that applies, in this order. */
  lemma RejectsExactly(s: State, tx: SignedTransaction)
    requires Guarded(tx) && (tx.payload.from_ in s.accounts ==> Solvent(s.accounts[tx.payload.from_]))
    ensures var p := tx.payload;
      Submit(s, tx) ==
        if Key(p.from_, p.nonce) in s.mempool then Err(DuplicateTransaction)
        else if p.feeSelector > 2 then Err(BadSelector)
        else if p.from_ !in s.accounts then Err(SenderNotFound)
        else if p.fee >= 0x8000_0000_0000_0000 then Err(FeeRejected(Overflow))
        else if !Affords(s.accounts[p.from_], p) then Err(InsufficientBalance)
        else if p.nonce != (s.accounts[p.from_].nonce + s.accounts[p.from_].pendingNonce + 1) % TWO64 then Err(BadNonce)
        else if !VerifySignedTx(tx) then Err(SignatureFailed)
        else Ok(Submitted(s, tx))
  {
    hide VerifySignedTx, Affords;
    var p := tx.payload;
    if p.from_ in s.accounts && p.feeSelector <= 2 && p.fee <= MAX_FEE {
      CoversIffAffords(s.accounts[p.from_], tx);
      NextNonceWraps(s.accounts[p.from_]);
    }
  }

  lemma NextNonceWraps(acc: Account)
    ensures NextNonce(acc) == (acc.nonce + acc.pendingNonce + 1) % TWO64
  {
  }

  ghost function Submitted(s: State, tx: SignedTransaction): State {
    if Submit(s, tx).Ok? then Submit(s, tx).value else s
  }

  /** In particular one within the overflow guard, from a solvent account, is admitted exactly when it is new, its fee is
      in range, its sender can afford it on top of everything pending, it carries the next nonce, and its signature
      verifies. */
  lemma AdmitsExactly(s: State, tx: SignedTransaction)
    requires Guarded(tx) && (tx.payload.from_ in s.accounts ==> Solvent(s.accounts[tx.payload.from_]))
    ensures Submit(s, tx).Ok? <==>
            var from_ := tx.payload.from_;
            && KeyOf(tx) !in s.mempool
            && tx.payload.feeSelector <= 2 && tx.payload.fee <= MAX_FEE
            && from_ in s.accounts
            && Affords(s.accounts[from_], tx.payload)
            && tx.payload.nonce == (s.accounts[from_].nonce + s.accounts[from_].pendingNonce + 1) % TWO64
            && VerifySignedTx(tx)
  {
    RejectsExactly(s, tx);
    hide Submit, VerifySignedTx, Affords, Guarded;
    if Submit(s, tx).Ok? {
      AcceptedSubmit(s, tx);
    }
  }

  /** What admission changes: each reserved total rises by the amount and the fee in its token, the pending nonce by one,
      and the transaction is filed under its sender and nonce. */
  lemma AdmissionReserves(s: State, tx: SignedTransaction)
    requires Submit(s, tx).Ok? && Guarded(tx)
    ensures var p := tx.payload; var s' := Submit(s, tx).value;
      && p.from_ in s.accounts
      && var acc := s.accounts[p.from_];
         && acc.pendingConsumer + p.amountConsumer + ConsumerFee(p) < TWO64
         && acc.pendingIndustrial + p.amountIndustrial + (p.fee - ConsumerFee(p)) < TWO64
         && s' == s.(mempool := s.mempool[Key(p.from_, p.nonce) := tx],
                     accounts := s.accounts[p.from_ := acc.(
                       pendingConsumer := acc.pendingConsumer + p.amountConsumer + ConsumerFee(p),
                       pendingIndustrial := acc.pendingIndustrial + p.amountIndustrial + (p.fee - ConsumerFee(p)),
                       pendingNonce := (acc.pendingNonce + 1) % TWO64)])
  {
    AcceptedSubmit(s, tx);
    FeeInTokens(tx);
    hide Submit, VerifySignedTx, Decompose, FeeOf, ConsumerFee;
    var acc := s.accounts[tx.payload.from_];
    ReserveIsExact(acc, tx, Consumer);
    ReserveIsExact(acc, tx, Industrial);
  }

  /** The overflow guard is exactly what the unchecked sums need: a transaction admitted from a solvent account is one
      its sender can afford if and only if neither `amount + fee` leaves the word. */
  lemma GuardIsExact(s: State, tx: SignedTransaction)
    requires Submit(s, tx).Ok? && Solvent(s.accounts[tx.payload.from_])
    ensures Affords(s.accounts[tx.payload.from_], tx.payload) <==> Guarded(tx)
  {
    hide VerifySignedTx;
    AcceptedSubmit(s, tx);
    if Guarded(tx) {
      CoversIffAffords(s.accounts[tx.payload.from_], tx);
    }
  }

  /** And the code does not check it: a sum that wraps to zero is admitted from an empty account. */
  lemma GuardIsUnchecked(s: State, tx: SignedTransaction, a: Bytes)
    requires s == FreshState(8).(accounts := map[a := NewAccount(a, 0, 0)])
    requires tx.payload == RawTxPayload(a, a, TWO64 - 1, 0, 1, 0, 1, []) && VerifySignedTx(tx)
    ensures Submit(s, tx).Ok? && !Guarded(tx) && !Affords(s.accounts[a], tx.payload)
  {
  }

  /** Mined, it creates 2^64 units beside the reward. */
  lemma WrappedSumMints(s: State, tx: SignedTransaction, a: Bytes, miner: Bytes)
    requires s == FreshState(8).(accounts := map[a := NewAccount(a, 0, 0).(pendingNonce := 1)],
                                 mempool := map[Key(a, 1) := tx])
    requires tx.payload == RawTxPayload(a, a, TWO64 - 1, 0, 1, 0, 1, []) && VerifySignedTx(tx) && a != COINBASE
    requires MineOutcome(s, miner).Ok?
    ensures Total(MineState(s, miner).accounts, Consumer) == Minted(s, Consumer) + TWO64
  {
    hide VerifySignedTx, FirstNonce, SortedPool, Minted, MineState, MineOutcome, Inv, SettlesFit, CreditsFit,
      Unbacked;
    SinglePool(s.mempool, tx);
    WrappedFacts(s, tx, a);
    MinedBlock(s, miner);
    SucceedingMineFits(s, miner);
    MineConserves(s, miner, PushedBlock(s, miner), MineState(s, miner));
  }

  lemma WrappedFacts(s: State, tx: SignedTransaction, a: Bytes)
    requires s.accounts == map[a := NewAccount(a, 0, 0).(pendingNonce := 1)] && s.mempool == map[Key(a, 1) := tx]
    requires tx.payload == RawTxPayload(a, a, TWO64 - 1, 0, 1, 0, 1, []) && VerifySignedTx(tx) && a != COINBASE
    ensures Inv(s) && SettlesFit(s.accounts, [tx])
    ensures ListUnbacked([tx], Consumer) == TWO64 && Total(s.accounts, Consumer) == 0
  {
    hide VerifySignedTx;
    assert Cost(tx, Consumer) == 0 == Cost(tx, Industrial);
    CostInsert(map[], Key(a, 1), tx, a, Consumer);
    CostInsert(map[], Key(a, 1), tx, a, Industrial);
    CountInsert(map[], Key(a, 1), tx, a);
    EmptyPool(map[], a);
    assert map[][Key(a, 1) := tx] == s.mempool;
    assert ReservedAt(s.accounts[a], s.mempool, a) && CountedAt(s.accounts[a], s.mempool, a);
    UnbackedIff(tx, Consumer);
    assert [tx][1..] == [];
    TotalUpdate(map[], a, s.accounts[a], Consumer);
    assert map[][a := s.accounts[a]] == s.accounts;
    assert Balances(map[], Consumer) == map[];
  }
}
