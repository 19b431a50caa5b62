/** What an import makes of emission and supply (src/lib.rs:955-987, 1015-1042). */
module ImportedSupply {
  import opened Machine
  import opened Transaction
  import opened Ledger
  import opened Settlement
  import opened Reservation
  import opened Runs
  import opened Validation
  import opened Replay

  function Coinbase(b: Block, t: Token): u64 {
    if t.Consumer? then b.coinbaseConsumer else b.coinbaseIndustrial
  }

  ghost function CoinbaseTotal(chain: seq<Block>, t: Token): nat {
    if chain == [] then 0 else CoinbaseTotal(Init(chain), t) + Coinbase(Last(chain), t)
  }

  ghost function FeeTotal(chain: seq<Block>, t: Token): nat {
    if chain == [] then 0 else FeeTotal(Init(chain), t) + ListFee(Body(Last(chain)), t)
  }

  lemma {:induction false} ReplayEmission(s: State, blocks: seq<Block>, t: Token)
    requires ReplayChain(s, blocks).Ok?
    ensures Emission(ReplayChain(s, blocks).value, t) == (Emission(s, t) + CoinbaseTotal(blocks, t)) % TWO64
  {
    hide ReplayBlock;
    if blocks == [] {
      WordIsItself(Emission(s, t));
    } else {
      ReplayEmission(s, Init(blocks), t);
      ReplayedBlock(ReplayChain(s, Init(blocks)).value, Last(blocks));
      WrapAdd(Emission(s, t) + CoinbaseTotal(Init(blocks), t), Coinbase(Last(blocks), t));
    }
  }

  lemma WrapAdd(x: nat, y: u64)
    ensures Add64(x % TWO64, y) == (x + y) % TWO64
  {
  }

  /** The coinbases of a run's chain are its emission and its fees. */
  lemma {:induction false} CoinbasesAreEmissionAndFees(d: u64, es: seq<Event>, t: Token)
    requires Admissible(d, es)
    ensures var s := Run(FreshState(d), es); CoinbaseTotal(s.chain, t) == Emission(s, t) + FeeTotal(s.chain, t)
  {
    if es != [] {
      var s := Run(FreshState(d), Init(es));
      CoinbasesAreEmissionAndFees(d, Init(es), t);
      RunReserves(d, Init(es));
      EmissionStaysBounded(d, Init(es), t);
      hide Inv, NoncesWithin, SearchEnds, CreditsFit, Step, Minted, ListFee, Body, PushedBlock;
      if Appends(s, Last(es)) {
        hide Appends;
        AppendedIsMine(s, Last(es));
        AppendStep(s, Last(es));
        PushedShape(s, Last(es).miner);
        MineStepConserves(s, Last(es), t);
      } else {
        QuietStep(s, Last(es));
      }
    }
  }

  /** An import counts whole coinbases as emission, fees included: the importing node's emission runs ahead of the
      miner's by every fee ever mined, on a 64-bit counter. */
  lemma ImportedEmission(d: u64, es: seq<Event>, node: State, t: Token)
    requires Admissible(d, es)
    requires Import(node, Run(FreshState(d), es).chain).Ok?
    ensures var s := Run(FreshState(d), es);
      Emission(Import(node, s.chain).value, t) == (Emission(s, t) + FeeTotal(s.chain, t)) % TWO64
  {
    hide ValidChain, ReplayChain, Run, Admissible, CoinbaseTotal, FeeTotal;
    ReplayEmission(Cleared(node), Run(FreshState(d), es).chain, t);
    CoinbasesAreEmissionAndFees(d, es, t);
  }

  /** What replay takes from a sender: nothing from one it does not know, and no more than there is. */
  ghost function ReplayTaken(accts: Accounts, tx: SignedTransaction, t: Token): nat {
    if Known(accts.Keys, tx) then Min(BalAt(accts, tx.payload.from_, t), Cost(tx, t)) else 0
  }

  /** By how much a credit wraps. */
  ghost function Wrapped(accts: Accounts, a: Bytes, amount: u64, t: Token): nat {
    if BalAt(accts, a, t) + amount < TWO64 then 0 else TWO64
  }

  /** What replaying a transaction creates, or by wrapping a credit destroys: the payment and its fee, less what was
      taken for them. */
  ghost function TxExcess(accts: Accounts, tx: SignedTransaction, t: Token): int {
    Amount(tx, t) + FeeOf(tx, t) - ReplayTaken(accts, tx, t) - Wrapped(ReplayDebit(accts, tx), tx.payload.to, Amount(tx, t), t)
  }

  ghost function ListExcess(accts: Accounts, txs: seq<SignedTransaction>, t: Token): int
    decreases |txs|
  {
    if txs == [] then 0 else TxExcess(accts, txs[0], t) + ListExcess(ReplayOne(accts, txs[0]), txs[1..], t)
  }

  ghost function ChainExcess(s: State, blocks: seq<Block>, t: Token): int
    requires ReplayChain(s, blocks).Ok?
  {
    if blocks == [] then 0
    else ChainExcess(s, Init(blocks), t) + ListExcess(ReplayChain(s, Init(blocks)).value.accounts, Body(Last(blocks)), t)
  }

  lemma ReplayOneTotal(accts: Accounts, tx: SignedTransaction, t: Token)
    ensures Total(ReplayOne(accts, tx), t) + FeeOf(tx, t) == Total(accts, t) + TxExcess(accts, tx, t)
  {
    hide Cost, FeeOf;
    var debited := ReplayDebit(accts, tx);
    if Known(accts.Keys, tx) {
      TotalUpdate(accts, tx.payload.from_, debited[tx.payload.from_], t);
    }
    TotalUpdate(debited, tx.payload.to, ReplayOne(accts, tx)[tx.payload.to], t);
  }

  lemma {:induction false} ReplayListTotal(accts: Accounts, txs: seq<SignedTransaction>, t: Token)
    requires ReplayTxs(accts, txs).Ok?
    ensures Total(ReplayTxs(accts, txs).value, t) + ListFee(txs, t) == Total(accts, t) + ListExcess(accts, txs, t)
    decreases |txs|
  {
    hide SignatureError, TxExcess, FeeOf, ReplayOne;
    if txs != [] {
      ReplayOneTotal(accts, txs[0], t);
      ReplayListTotal(ReplayOne(accts, txs[0]), txs[1..], t);
    }
  }

  lemma {:induction false} ReplayChainTotal(s: State, blocks: seq<Block>, t: Token)
    requires ReplayChain(s, blocks).Ok?
    ensures Total(ReplayChain(s, blocks).value.accounts, t) + FeeTotal(blocks, t)
            == Total(s.accounts, t) + CoinbaseTotal(blocks, t) + ChainExcess(s, blocks, t)
  {
    hide ReplayBlock, ReplayTxs, Total, ListExcess, ListFee, Body, MinerOf, Credit, Fits;
    if blocks != [] {
      ReplayChainTotal(s, Init(blocks), t);
      var s' := ReplayChain(s, Init(blocks)).value;
      var b := Last(blocks);
      ReplayedBlock(s', b);
      var accts := ReplayTxs(s'.accounts, Body(b)).value;
      ReplayListTotal(s'.accounts, Body(b), t);
      TotalCredit(accts, MinerOf(b), b.coinbaseConsumer, b.coinbaseIndustrial, t);
    }
  }

  /** The supply of any node that imports any chain, mined by whoever: its coinbases less the fees they repay, and
      whatever debits that found too little, or nobody, to take from created. Neither validator looks at balances or bounds
      a coinbase from above. */
  lemma TotalAfterImport(node: State, chain: seq<Block>, t: Token)
    requires Import(node, chain).Ok?
    ensures Total(Import(node, chain).value.accounts, t) + FeeTotal(chain, t)
            == CoinbaseTotal(chain, t) + ChainExcess(Cleared(node), chain, t)
  {
    hide ValidChain, ReplayChain, Cleared;
    assert Total(Cleared(node).accounts, t) == 0 by {
      EmptyTotal(node, t);
    }
    ReplayChainTotal(Cleared(node), chain, t);
  }

  lemma EmptyTotal(node: State, t: Token)
    ensures Total(Cleared(node).accounts, t) == 0
  {
    assert Balances(map[], t) == map[];
  }
}
