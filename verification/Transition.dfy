/** What a block does to balances, in the payloads' own fields, and what every outcome of mining leaves
    (CONSENSUS.md:28-41; src/lib.rs:622-805). */
module Transition {
  import opened Machine
  import opened Fee
  import opened Encoding
  import opened Crypto
  import opened Transaction
  import opened Order
  import opened Ledger
  import opened Settlement
  import opened Reservation
  import opened RewardDecay
  import opened Runs
  import opened Reference

  // ---- every address of every block ----

  /** What a list pays to an address. */
  ghost function ListReceived(txs: seq<SignedTransaction>, a: Bytes, t: Token): nat {
    if txs == [] then 0 else (if txs[0].payload.to == a then Amount(txs[0], t) else 0) + ListReceived(txs[1..], a, t)
  }

  lemma SettleOneMoves(accts: Accounts, tx: SignedTransaction, a: Bytes, t: Token)
    requires Exact(accts, tx)
    ensures BalAt(SettleOne(accts, tx), a, t) + (if a == COINBASE then 0 else CostFrom(tx, a, t))
            == BalAt(accts, a, t) + (if tx.payload.to == a then Amount(tx, t) else 0)
  {
    hide Cost;
    var from_ := tx.payload.from_;
    if from_ != COINBASE {
      assert Cost(tx, t) <= Bal(accts[from_], t);
    }
  }

  lemma {:induction false} SettleMoves(accts: Accounts, txs: seq<SignedTransaction>, a: Bytes, t: Token)
    requires SettlesExactly(accts, txs)
    ensures BalAt(Settle(accts, txs), a, t) + (if a == COINBASE then 0 else ListCost(txs, a, t))
            == BalAt(accts, a, t) + ListReceived(txs, a, t)
    decreases |txs|
  {
    hide Exact, SettleOne, CostFrom;
    if txs != [] {
      SettleOneMoves(accts, txs[0], a, t);
      SettleMoves(SettleOne(accts, txs[0]), txs[1..], a, t);
    }
  }

  /** A block whose credits fit moves each balance by exactly what its transactions pay to the address, less what they
      cost it, and the miner's by the reward and the fees as well. */
  lemma BlockMovesBalances(s: State, miner: Bytes, a: Bytes, t: Token)
    requires Inv(s) && Pushes(s, miner) && CreditsFit(s, miner)
    ensures var txs := SortedPool(s.mempool);
      BalAt(MineState(s, miner).accounts, a, t) + (if a == COINBASE then 0 else ListCost(txs, a, t))
      == BalAt(s.accounts, a, t) + ListReceived(txs, a, t) + (if a == miner then Minted(s, t) + ListFee(txs, t) else 0)
  {
    FittingStep(s, MineEvent(miner));
    PushedCoinbase(s, MineEvent(miner));
    hide Inv, Pushes, SortedPool, Settle, MineState, Extends, Minted, ListFee, ListCost, ListReceived, SettlesFit,
      SettlesExactly, PushedBlock, Credit, Fits, BalAt, FeesOverflow;
    var b := PushedBlock(s, miner);
    MineConserves(s, miner, b, MineState(s, miner));
    SettleMoves(s.accounts, SortedPool(s.mempool), a, t);
    CreditMoves(Settle(s.accounts, SortedPool(s.mempool)), miner, b.coinbaseConsumer, b.coinbaseIndustrial, a, t);
  }

  lemma CreditMoves(accts: Accounts, to: Bytes, consumer: u64, industrial: u64, a: Bytes, t: Token)
    requires Fits(accts, to, consumer, industrial)
    ensures BalAt(Credit(accts, to, consumer, industrial), a, t)
            == BalAt(accts, a, t) + (if a == to then (if t.Consumer? then consumer else industrial) else 0)
  {
  }

  // ---- one transaction, field by field ----

  ghost function BalanceOf(accts: Accounts, a: Bytes): TokenBalance {
    if a in accts then accts[a].balance else TokenBalance(0, 0)
  }

  /** The reward of the next block: the decayed one, as far as the maximum supply allows. */
  ghost function NextReward(emission: nat, reward: nat): nat {
    var decayed := reward * 99_995 / 100_000;
    if emission + decayed <= 20_000_000_000_000 then decayed
    else if emission <= 20_000_000_000_000 then 20_000_000_000_000 - emission else 0
  }

  lemma MintedIsNextReward(s: State)
    requires s.emissionConsumer <= 20_000_000_000_000 && s.emissionIndustrial <= 20_000_000_000_000
    ensures Minted(s, Consumer) == NextReward(s.emissionConsumer, s.rewardConsumer)
    ensures Minted(s, Industrial) == NextReward(s.emissionIndustrial, s.rewardIndustrial)
  {
    MintedKeepsSupply(s, Consumer);
    MintedKeepsSupply(s, Industrial);
  }

  /** The state transition of CONSENSUS.md. A block with one transaction takes each token's amount and fee from the
      sender, gives the amount to the recipient and the fee to the miner on top of the reward, and touches no other
      balance. */
  lemma OneTransactionBlock(s: State, tx: SignedTransaction, miner: Bytes, a: Bytes)
    requires Inv(s) && Pushes(s, miner) && CreditsFit(s, miner)
    requires s.mempool == map[KeyOf(tx) := tx] && Guarded(tx)
    requires s.emissionConsumer <= 20_000_000_000_000 && s.emissionIndustrial <= 20_000_000_000_000
    requires var p := tx.payload; p.from_ != COINBASE && p.from_ != p.to && p.from_ != miner && p.to != miner
    ensures var p := tx.payload; var feeC := ConsumerFee(p); var feeI := p.fee - feeC;
      var before := BalanceOf(s.accounts, a); var after := BalanceOf(MineState(s, miner).accounts, a);
      && after.consumer as int
         == (if a == p.from_ then before.consumer - (p.amountConsumer + feeC)
             else if a == p.to then before.consumer + p.amountConsumer
             else if a == miner then before.consumer + NextReward(s.emissionConsumer, s.rewardConsumer) + feeC
             else before.consumer)
      && after.industrial as int
         == (if a == p.from_ then before.industrial - (p.amountIndustrial + feeI)
             else if a == p.to then before.industrial + p.amountIndustrial
             else if a == miner then before.industrial + NextReward(s.emissionIndustrial, s.rewardIndustrial) + feeI
             else before.industrial)
  {
    hide Inv, Pushes, CreditsFit, MineState, Minted, Decompose, NextReward, ConsumerFee;
    SinglePool(s.mempool, tx);
    SingleAdmitted(s, tx);
    FeeInTokens(tx);
    MintedIsNextReward(s);
    SingleSums(tx, a, Consumer);
    SingleSums(tx, a, Industrial);
    BlockMovesBalances(s, miner, a, Consumer);
    BlockMovesBalances(s, miner, a, Industrial);
  }

  lemma SingleAdmitted(s: State, tx: SignedTransaction)
    requires Inv(s) && s.mempool == map[KeyOf(tx) := tx]
    ensures Decompose(tx.payload.feeSelector, tx.payload.fee).Ok?
  {
    assert KeyOf(tx) in s.mempool;
    assert Admitted(s.mempool[KeyOf(tx)]);
  }

  lemma SingleSums(tx: SignedTransaction, a: Bytes, t: Token)
    ensures ListFee([tx], t) == FeeOf(tx, t)
    ensures ListCost([tx], a, t) == CostFrom(tx, a, t)
    ensures ListReceived([tx], a, t) == if tx.payload.to == a then Amount(tx, t) else 0
  {
    assert [tx][1..] == [];
  }

  /** The first block of any node pays 59 997 consumer and 29 998 industrial units. */
  lemma FirstReward(d: u64)
    ensures FreshState(d).rewardConsumer == 60_000 && FreshState(d).rewardIndustrial == 30_000
    ensures Minted(FreshState(d), Consumer) == 59_997 && Minted(FreshState(d), Industrial) == 29_998
  {
  }

  /** The emission bounds of every run, in units. */
  lemma EmissionInUnits(d: u64, es: seq<Event>)
    ensures var s := Run(FreshState(d), es);
      && s.emissionConsumer + 20_000 * s.rewardConsumer <= 1_200_000_000
      && s.emissionIndustrial + 20_000 * s.rewardIndustrial <= 600_000_000
      && s.rewardConsumer == Decayed(60_000, MineCount(es)) && s.rewardIndustrial == Decayed(30_000, MineCount(es))
      && Minted(s, Consumer) == s.rewardConsumer * 99_995 / 100_000
      && Minted(s, Industrial) == s.rewardIndustrial * 99_995 / 100_000
  {
    hide Run, Minted;
    EmissionStaysBounded(d, es, Consumer);
    EmissionStaysBounded(d, es, Industrial);
  }

  // ---- the block that mining builds ----

  /** `a` comes before `b` byte by byte: a proper prefix, or smaller where they first differ. */
  ghost predicate Before(a: seq<byte>, b: seq<byte>) {
    exists i: nat :: DiffersAt(a, b, i)
  }

  ghost predicate DiffersAt(a: seq<byte>, b: seq<byte>, i: nat) {
    i <= |a| && i < |b| && a[..i] == b[..i] && (i < |a| ==> a[i] < b[i])
  }

  lemma {:induction false} LessIsBefore(a: seq<byte>, b: seq<byte>)
    ensures Less(a, b) <==> Before(a, b)
  {
    if a != [] && b != [] {
      LessIsBefore(a[1..], b[1..]);
      if a[0] == b[0] && Before(a[1..], b[1..]) {
        var i: nat :| DiffersAt(a[1..], b[1..], i);
        assert a[..i + 1] == [a[0]] + a[1..][..i] && b[..i + 1] == [b[0]] + b[1..][..i];
        assert DiffersAt(a, b, i + 1);
      }
      if i: nat :| DiffersAt(a, b, i) {
        if i > 0 {
          assert a[0] == a[..i][0] == b[..i][0] == b[0];
          assert a[1..][..i - 1] == a[..i][1..] && b[1..][..i - 1] == b[..i][1..];
          assert DiffersAt(a[1..], b[1..], i - 1);
        }
      }
      if a[0] < b[0] {
        assert DiffersAt(a, b, 0);
      }
    } else if b != [] {
      assert DiffersAt(a, b, 0);
    }
  }

  ghost predicate InBlockOrder(txs: seq<SignedTransaction>) {
    forall i, j | 0 <= i < j < |txs| ::
      var p, q := txs[i].payload, txs[j].payload;
      Before(p.from_, q.from_) || (p.from_ == q.from_ && p.nonce < q.nonce)
  }

  lemma PoolInBlockOrder(pool: Pool)
    requires Keyed(pool)
    ensures InBlockOrder(SortedPool(pool))
    ensures forall tx :: tx in SortedPool(pool) <==> KeyOf(tx) in pool && pool[KeyOf(tx)] == tx
  {
    hide Before, Less;
    var txs := SortedPool(pool);
    SortedPoolSorted(pool);
    SortedPoolLists(pool);
    forall i, j | 0 <= i < j < |txs|
      ensures var p, q := txs[i].payload, txs[j].payload;
        Before(p.from_, q.from_) || (p.from_ == q.from_ && p.nonce < q.nonce)
    {
      assert KeyLess(KeyOf(txs[i]), KeyOf(txs[j]));
      LessIsBefore(txs[i].payload.from_, txs[j].payload.from_);
    }
  }

  /** The block `mine_block` builds, field by field: at the tip and linked to it, at the node's difficulty, with the reward
      and the fees as its coinbase, paid to the miner by an unsigned transaction from 34 zeros, then the whole mempool
      by sender and nonce, and the digest of the fee totals. */
  lemma MinedFields(s: State, miner: Bytes)
    requires Pushes(s, miner) && Keyed(s.mempool) && |s.chain| < TWO64
    requires s.emissionConsumer <= 20_000_000_000_000 && s.emissionIndustrial <= 20_000_000_000_000
    ensures var b := PushedBlock(s, miner); var txs := b.transactions[1..];
      var feeC, feeI := ListFee(txs, Consumer), ListFee(txs, Industrial);
      && b.index == |s.chain| && b.difficulty == s.difficulty
      && (if s.chain == [] then Zeros(b.previousHash, 64) else b.previousHash == s.chain[|s.chain| - 1].hash)
      && b.coinbaseConsumer == NextReward(s.emissionConsumer, s.rewardConsumer) + feeC
      && b.coinbaseIndustrial == NextReward(s.emissionIndustrial, s.rewardIndustrial) + feeI
      && b.feeChecksum == ToHex(Blake3(Le64(feeC) + Le64(feeI)))
      && Zeros(b.transactions[0].payload.from_, 34)
      && b.transactions[0] == SignedTransaction(
           RawTxPayload(b.transactions[0].payload.from_, miner, b.coinbaseConsumer, b.coinbaseIndustrial, 0, 0, 0, []), [], [])
      && InBlockOrder(txs)
      && forall tx :: tx in txs <==> KeyOf(tx) in s.mempool && s.mempool[KeyOf(tx)] == tx
  {
    PushedExtends(s, miner);
    var b := PushedBlock(s, miner);
    assert b.transactions[1..] == SortedPool(s.mempool);
    hide Pushes, PushedBlock, SortedPool, Settle, BlockHash, LeastNonce, Minted, ListFee, NextReward, InBlockOrder,
      Zeros, ToHex, Le64, Keyed, KeyOf;
    MintedIsNextReward(s);
    PoolInBlockOrder(s.mempool);
    ZerosAre(COINBASE);
    ZerosAre(PreviousHash(s.chain));
  }

  // ---- what mining leaves ----

  /** The state after each outcome. A fee overflow leaves the decayed rewards and nothing else; an exhausted search has
      cleared the mempool too; a miner's overflow leaves the block appended and settled, emission and height as they
      were, and of the miner's credit only a consumer part that fits. */
  lemma MineLeaves(s: State, miner: Bytes)
    ensures var s' := MineState(s, miner);
      var decayed := s.(rewardConsumer := s.rewardConsumer * 99_995 / 100_000,
                        rewardIndustrial := s.rewardIndustrial * 99_995 / 100_000);
      match MineOutcome(s, miner)
      case Err(FeeOverflow) => s' == decayed
      case Err(NonceOverflow) => s' == decayed.(mempool := map[])
      case Err(MinerOverflow) =>
        && Pushes(s, miner)
        && s' == decayed.(mempool := map[], chain := s.chain + [PushedBlock(s, miner)], accounts := s'.accounts)
        && var settled := Settle(s.accounts, SortedPool(s.mempool)); var b := PushedBlock(s, miner);
           var m := BalanceOf(settled, miner);
           && BalanceOf(s'.accounts, miner)
              == (if m.consumer + b.coinbaseConsumer >= TWO64 then m
                  else TokenBalance(m.consumer + b.coinbaseConsumer, m.industrial))
           && s'.accounts.Keys == settled.Keys + {miner}
           && forall a | a in settled && a != miner :: s'.accounts[a] == settled[a]
      case Ok(b) =>
        && Pushes(s, miner) && b == PushedBlock(s, miner)
        && s'.chain == s.chain + [b] && s'.mempool == map[] && s'.difficulty == s.difficulty
        && s'.rewardConsumer == decayed.rewardConsumer && s'.rewardIndustrial == decayed.rewardIndustrial
  {
    hide FirstNonce, SortedPool, Settle, FeeChecksum, Minted;
    if Candidate(s, miner).Ok? {
      assert Candidate(s, miner).value.transactions[1..] == SortedPool(s.mempool);
    }
  }
}
