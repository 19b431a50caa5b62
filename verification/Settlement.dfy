/** Settling a block against the reservations that back it: exact arithmetic and conservation. */
module Settlement {
  import opened Machine
  import opened Transaction
  import opened MapSum
  import opened Ledger

  // ---- sums ----

  /** The total held at all addresses. */
  ghost function Total(accts: Accounts, t: Token): nat {
    Sum(Balances(accts, t))
  }

  ghost function Balances(accts: Accounts, t: Token): map<Bytes, nat> {
    map a | a in accts :: Bal(accts[a], t)
  }

  /** What a sender's transactions in a list debit. */
  ghost function ListCost(txs: seq<SignedTransaction>, a: Bytes, t: Token): nat {
    if txs == [] then 0 else CostFrom(txs[0], a, t) + ListCost(txs[1..], a, t)
  }

  ghost function CostFrom(tx: SignedTransaction, a: Bytes, t: Token): nat {
    if tx.payload.from_ == a then Cost(tx, t) else 0
  }

  ghost function ListCount(txs: seq<SignedTransaction>, a: Bytes): nat {
    if txs == [] then 0 else (if txs[0].payload.from_ == a then 1 else 0) + ListCount(txs[1..], a)
  }

  /** What settlement takes from the sender: nothing from the coinbase address, whose debit is skipped
      (src/lib.rs:730), and elsewhere the sum as it wraps. */
  ghost function Taken(tx: SignedTransaction, t: Token): nat {
    if tx.payload.from_ == COINBASE then 0 else Cost(tx, t)
  }

  /** What it hands out without taking it from anybody. */
  ghost function Unbacked(tx: SignedTransaction, t: Token): nat {
    Amount(tx, t) + FeeOf(tx, t) - Taken(tx, t)
  }

  /** Only two kinds of transaction mint: one from the coinbase address that names anything, and one whose
      `amount + fee` wraps, which mints 2^64 units. */
  lemma UnbackedIff(tx: SignedTransaction, t: Token)
    ensures tx.payload.from_ == COINBASE ==> (Unbacked(tx, t) == 0 <==> Amount(tx, t) == 0 && FeeOf(tx, t) == 0)
    ensures tx.payload.from_ != COINBASE ==> Unbacked(tx, t) == if Amount(tx, t) + FeeOf(tx, t) < TWO64 then 0 else TWO64
  {
  }

  ghost function ListUnbacked(txs: seq<SignedTransaction>, t: Token): nat {
    if txs == [] then 0 else Unbacked(txs[0], t) + ListUnbacked(txs[1..], t)
  }

  lemma TotalUpdate(accts: Accounts, a: Bytes, acc: Account, t: Token)
    ensures Total(accts[a := acc], t) + BalAt(accts, a, t) == Total(accts, t) + Bal(acc, t)
  {
    assert Balances(accts[a := acc], t) == Balances(accts, t)[a := Bal(acc, t)];
    SumUpdate(Balances(accts, t), a, Bal(acc, t));
  }

  lemma TotalBounds(accts: Accounts, a: Bytes, t: Token)
    ensures BalAt(accts, a, t) <= Total(accts, t)
  {
    if a in accts {
      SumRemove(Balances(accts, t), a);
    }
  }

  lemma TotalCredit(accts: Accounts, a: Bytes, consumer: u64, industrial: u64, t: Token)
    requires Fits(accts, a, consumer, industrial)
    ensures Total(Credit(accts, a, consumer, industrial), t)
            == Total(accts, t) + (if t.Consumer? then consumer else industrial)
  {
    TotalUpdate(accts, a, Credit(accts, a, consumer, industrial)[a], t);
  }

  // ---- exactness ----

  /** Neither balance wraps around under the credit. */
  ghost predicate Fits(accts: Accounts, a: Bytes, consumer: u64, industrial: u64) {
    BalAt(accts, a, Consumer) + consumer < TWO64 && BalAt(accts, a, Industrial) + industrial < TWO64
  }

  /** No `saturating_sub` of the debit clamps. */
  ghost predicate DebitExact(acc: Account, tx: SignedTransaction) {
    && (forall t :: Cost(tx, t) <= Pend(acc, t) && Cost(tx, t) <= Bal(acc, t))
    && acc.pendingNonce >= 1
  }

  /** Settling this transaction debits and credits exactly. */
  ghost predicate Exact(accts: Accounts, tx: SignedTransaction) {
    var from_ := tx.payload.from_;
    && (from_ != COINBASE ==> from_ in accts && DebitExact(accts[from_], tx))
    && Fits(Debit(accts, tx), tx.payload.to, tx.payload.amountConsumer, tx.payload.amountIndustrial)
  }

  /** Every transaction of the list does, at the point where settlement reaches it. */
  ghost predicate SettlesExactly(accts: Accounts, txs: seq<SignedTransaction>)
    decreases |txs|
  {
    txs == [] || (Exact(accts, txs[0]) && SettlesExactly(SettleOne(accts, txs[0]), txs[1..]))
  }

  // ---- reservations back the list ----

  ghost predicate BackedFor(acc: Account, txs: seq<SignedTransaction>, a: Bytes, t: Token) {
    Pend(acc, t) == ListCost(txs, a, t) && Pend(acc, t) <= Bal(acc, t)
  }

  ghost predicate BackedAt(acc: Account, txs: seq<SignedTransaction>, a: Bytes) {
    && BackedFor(acc, txs, a, Consumer)
    && BackedFor(acc, txs, a, Industrial)
    && acc.pendingNonce == ListCount(txs, a)
  }

  /** Every sender has an account, and every account's reservations are exactly what the list takes from it
      and no more than it holds. Nothing is said of the coinbase address. */
  ghost predicate Backed(accts: Accounts, txs: seq<SignedTransaction>) {
    && (forall i | 0 <= i < |txs| :: txs[i].payload.from_ in accts)
    && (forall a | a in accts && a != COINBASE :: BackedAt(accts[a], txs, a))
  }

  /** Every credit of the settlement fits, at the point where settlement reaches it. */
  ghost predicate SettlesFit(accts: Accounts, txs: seq<SignedTransaction>)
    decreases |txs|
  {
    txs == []
    || (&& Fits(Debit(accts, txs[0]), txs[0].payload.to, txs[0].payload.amountConsumer, txs[0].payload.amountIndustrial)
        && SettlesFit(SettleOne(accts, txs[0]), txs[1..]))
  }

  lemma DebitBacked(accts: Accounts, txs: seq<SignedTransaction>)
    requires Backed(accts, txs) && txs != []
    ensures Backed(Debit(accts, txs[0]), txs[1..])
    ensures txs[0].payload.from_ != COINBASE ==> DebitExact(accts[txs[0].payload.from_], txs[0])
  {
    var tx, from_ := txs[0], txs[0].payload.from_;
    if from_ != COINBASE {
      assert BackedAt(accts[from_], txs, from_);
      forall t
        ensures Cost(tx, t) <= Pend(accts[from_], t) <= Bal(accts[from_], t)
      {
        assert BackedFor(accts[from_], txs, from_, t);
      }
    }
    var after := Debit(accts, tx);
    forall a | a in after && a != COINBASE
      ensures BackedAt(after[a], txs[1..], a)
    {
      assert BackedAt(accts[a], txs, a);
    }
  }

  lemma TotalDebit(accts: Accounts, tx: SignedTransaction, t: Token)
    requires var from_ := tx.payload.from_; from_ != COINBASE ==> from_ in accts && DebitExact(accts[from_], tx)
    ensures Total(Debit(accts, tx), t) + Taken(tx, t) == Total(accts, t)
  {
    var from_ := tx.payload.from_;
    if from_ != COINBASE {
      assert Cost(tx, t) <= Bal(accts[from_], t);
      TotalUpdate(accts, from_, DebitAccount(accts[from_], tx), t);
    }
  }

  lemma CreditBacked(accts: Accounts, txs: seq<SignedTransaction>, a: Bytes, consumer: u64, industrial: u64)
    requires Backed(accts, txs) && Fits(accts, a, consumer, industrial)
    ensures Backed(Credit(accts, a, consumer, industrial), txs)
  {
    var after := Credit(accts, a, consumer, industrial);
    forall b | b in after && b != COINBASE
      ensures BackedAt(after[b], txs, b)
    {
      if b in accts {
        assert BackedAt(accts[b], txs, b);
      } else {
        NothingFrom(txs, b);
      }
    }
  }

  lemma {:induction false} NothingFrom(txs: seq<SignedTransaction>, a: Bytes)
    requires forall i | 0 <= i < |txs| :: txs[i].payload.from_ != a
    ensures ListCount(txs, a) == 0 && forall t :: ListCost(txs, a, t) == 0
  {
    if txs != [] {
      NothingFrom(txs[1..], a);
    }
  }

  lemma FitsUnderTotal(accts: Accounts, a: Bytes, consumer: u64, industrial: u64)
    requires Total(accts, Consumer) + consumer < TWO64 && Total(accts, Industrial) + industrial < TWO64
    ensures Fits(accts, a, consumer, industrial)
  {
    TotalBounds(accts, a, Consumer);
    TotalBounds(accts, a, Industrial);
  }

  lemma SettleOneBacked(accts: Accounts, txs: seq<SignedTransaction>)
    requires Backed(accts, txs) && txs != []
    requires Fits(Debit(accts, txs[0]), txs[0].payload.to, txs[0].payload.amountConsumer, txs[0].payload.amountIndustrial)
    ensures Exact(accts, txs[0])
    ensures Backed(SettleOne(accts, txs[0]), txs[1..])
    ensures forall t :: Total(SettleOne(accts, txs[0]), t) + FeeOf(txs[0], t) == Total(accts, t) + Unbacked(txs[0], t)
  {
    var tx, p := txs[0], txs[0].payload;
    var debited := Debit(accts, tx);
    DebitBacked(accts, txs);
    CreditBacked(debited, txs[1..], p.to, p.amountConsumer, p.amountIndustrial);
    forall t
      ensures Total(SettleOne(accts, tx), t) + FeeOf(tx, t) == Total(accts, t) + Unbacked(tx, t)
    {
      TotalDebit(accts, tx, t);
      TotalCredit(debited, p.to, p.amountConsumer, p.amountIndustrial, t);
    }
  }

  /** A backed list whose credits fit settles with no clamp and no wrap at any point, leaves every reservation at
      zero, and changes the total by exactly the fees it sets aside and the unbacked payments it makes. */
  lemma {:induction false} SettleBacked(accts: Accounts, txs: seq<SignedTransaction>)
    requires Backed(accts, txs) && SettlesFit(accts, txs)
    ensures SettlesExactly(accts, txs)
    ensures Backed(Settle(accts, txs), [])
    ensures forall t :: Total(Settle(accts, txs), t) + ListFee(txs, t) == Total(accts, t) + ListUnbacked(txs, t)
    decreases |txs|
  {
    if txs != [] {
      SettleOneBacked(accts, txs);
      SettleBacked(SettleOne(accts, txs[0]), txs[1..]);
    }
  }

  lemma FirstCreditFits(accts: Accounts, txs: seq<SignedTransaction>)
    requires Backed(accts, txs) && txs != []
    requires forall t :: Total(accts, t) + ListUnbacked(txs, t) < TWO64
    ensures Fits(Debit(accts, txs[0]), txs[0].payload.to, txs[0].payload.amountConsumer, txs[0].payload.amountIndustrial)
  {
    var tx := txs[0];
    var debited := Debit(accts, tx);
    DebitBacked(accts, txs);
    forall t
      ensures Total(debited, t) + Amount(tx, t) < TWO64
    {
      TotalDebit(accts, tx, t);
      assert Total(accts, t) + ListUnbacked(txs, t) < TWO64;
    }
    assert Amount(tx, Consumer) == tx.payload.amountConsumer && Amount(tx, Industrial) == tx.payload.amountIndustrial;
    FitsUnderTotal(debited, tx.payload.to, tx.payload.amountConsumer, tx.payload.amountIndustrial);
  }

  /** The credits of a backed list fit if the totals do, with the unbacked payments it makes. */
  lemma {:induction false} FitsWhenTotalsFit(accts: Accounts, txs: seq<SignedTransaction>)
    requires Backed(accts, txs)
    requires forall t :: Total(accts, t) + ListUnbacked(txs, t) < TWO64
    ensures SettlesFit(accts, txs)
    decreases |txs|
  {
    if txs != [] {
      FirstCreditFits(accts, txs);
      StepWithinTotals(accts, txs);
      FitsWhenTotalsFit(SettleOne(accts, txs[0]), txs[1..]);
    }
  }

  lemma StepWithinTotals(accts: Accounts, txs: seq<SignedTransaction>)
    requires Backed(accts, txs) && txs != []
    requires forall t :: Total(accts, t) + ListUnbacked(txs, t) < TWO64
    requires Fits(Debit(accts, txs[0]), txs[0].payload.to, txs[0].payload.amountConsumer, txs[0].payload.amountIndustrial)
    ensures Backed(SettleOne(accts, txs[0]), txs[1..])
    ensures forall t :: Total(SettleOne(accts, txs[0]), t) + ListUnbacked(txs[1..], t) < TWO64
  {
    SettleOneBacked(accts, txs);
    forall t
      ensures Total(SettleOne(accts, txs[0]), t) + ListUnbacked(txs[1..], t) < TWO64
    {
      assert Total(accts, t) + ListUnbacked(txs, t) < TWO64;
    }
  }

  // ---- what settlement does to reservations, whatever the balances ----

  ghost function PendAt(accts: Accounts, a: Bytes, t: Token): u64 {
    if a in accts then Pend(accts[a], t) else 0
  }

  ghost function PendingNonceAt(accts: Accounts, a: Bytes): u64 {
    if a in accts then accts[a].pendingNonce else 0
  }

  /** Reserved amounts are released exactly, and never at the coinbase address. */
  lemma {:induction false} SettlePend(accts: Accounts, txs: seq<SignedTransaction>, a: Bytes, t: Token)
    requires a != COINBASE ==> ListCost(txs, a, t) <= PendAt(accts, a, t)
    ensures PendAt(Settle(accts, txs), a, t)
            == if a == COINBASE then PendAt(accts, a, t) else PendAt(accts, a, t) - ListCost(txs, a, t)
    decreases |txs|
  {
    if txs != [] {
      SettlePend(SettleOne(accts, txs[0]), txs[1..], a, t);
    }
  }

  /** So are reserved nonces. */
  lemma {:induction false} SettleCount(accts: Accounts, txs: seq<SignedTransaction>, a: Bytes)
    requires a != COINBASE ==> ListCount(txs, a) <= PendingNonceAt(accts, a)
    ensures PendingNonceAt(Settle(accts, txs), a)
            == if a == COINBASE then PendingNonceAt(accts, a) else PendingNonceAt(accts, a) - ListCount(txs, a)
    decreases |txs|
  {
    if txs != [] {
      SettleCount(SettleOne(accts, txs[0]), txs[1..], a);
    }
  }

  lemma {:induction false} SettleRaisesCoinbase(accts: Accounts, txs: seq<SignedTransaction>, t: Token)
    requires SettlesFit(accts, txs)
    ensures BalAt(accts, COINBASE, t) <= BalAt(Settle(accts, txs), COINBASE, t)
    decreases |txs|
  {
    if txs != [] {
      SettleRaisesCoinbase(SettleOne(accts, txs[0]), txs[1..], t);
    }
  }

  // ---- nonces ----

  function NonceAt(accts: Accounts, a: Bytes): u64 {
    if a in accts then accts[a].nonce else 0
  }

  /** The nonce of a sender's last transaction in a list, or `n` if it has none there. */
  ghost function LastNonce(txs: seq<SignedTransaction>, a: Bytes, n: u64): u64 {
    if txs == [] then n
    else LastNonce(txs[1..], a, if txs[0].payload.from_ == a then txs[0].payload.nonce else n)
  }

  lemma {:induction false} SettleNonce(accts: Accounts, txs: seq<SignedTransaction>, a: Bytes)
    requires forall i | 0 <= i < |txs| :: txs[i].payload.from_ in accts
    ensures NonceAt(Settle(accts, txs), a)
            == if a == COINBASE then NonceAt(accts, a) else LastNonce(txs, a, NonceAt(accts, a))
    ensures accts.Keys <= Settle(accts, txs).Keys
    decreases |txs|
  {
    if txs != [] {
      SettleNonce(SettleOne(accts, txs[0]), txs[1..], a);
    }
  }
}
