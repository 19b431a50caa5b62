/** Mempool operations touch only their own sender: order independence and the reservation round trip
    (src/lib.rs:499-605; tests/mempool_determinism.rs). */
module Locality {
  import opened Machine
  import opened Transaction
  import opened Order
  import opened Ledger
  import opened Reservation
  import opened Runs

  /** Whose account and mempool entries a call is about. */
  function Owner(e: Event): Bytes
    requires !e.MineEvent?
  {
    match e
    case AddAccountEvent(a, _, _) => a
    case SubmitEvent(tx) => tx.payload.from_
    case DropEvent(sender, _) => sender
  }

  ghost predicate NoMining(es: seq<Event>) {
    forall i | 0 <= i < |es| :: !es[i].MineEvent?
  }

  /** One sender's part of a state. */
  datatype Slice = Slice(account: Option<Account>, pool: Pool)

  ghost function SliceOf(s: State, a: Bytes): Slice {
    Slice(if a in s.accounts then Some(s.accounts[a]) else None,
          map k | k in s.mempool && k.sender == a :: s.mempool[k])
  }

  /** Whether the call goes through. */
  ghost predicate Accepts(s: State, e: Event)
    requires !e.MineEvent?
  {
    match e
    case AddAccountEvent(a, c, i) => AddAccount(s, a, c, i).Ok?
    case SubmitEvent(tx) => Submit(s, tx).Ok?
    case DropEvent(sender, nonce) => Drop(s, sender, nonce).Ok?
  }

  lemma OthersUntouched(s: State, e: Event, a: Bytes)
    requires !e.MineEvent? && Owner(e) != a
    ensures SliceOf(Step(s, e), a) == SliceOf(s, a)
  {
    hide VerifySignedTx, Covers;
    assert SliceOf(Step(s, e), a).pool == SliceOf(s, a).pool;
  }

  lemma SlicePool(s: State, s': State, k: Key)
    requires SliceOf(s, k.sender) == SliceOf(s', k.sender)
    ensures k in s.mempool <==> k in s'.mempool
    ensures k in s.mempool ==> s.mempool[k] == s'.mempool[k]
  {
    assert k in s.mempool <==> k in SliceOf(s, k.sender).pool;
    assert k in s'.mempool <==> k in SliceOf(s', k.sender).pool;
  }

  /** A call's effect on its owner, and its answer, depend on the owner's part alone. */
  lemma DependsOnSlice(s: State, s': State, e: Event)
    requires !e.MineEvent? && SliceOf(s, Owner(e)) == SliceOf(s', Owner(e))
    ensures Accepts(s, e) <==> Accepts(s', e)
    ensures SliceOf(Step(s, e), Owner(e)) == SliceOf(Step(s', e), Owner(e))
  {
    match e
    case AddAccountEvent(_, _, _) =>
    case SubmitEvent(tx) => SubmitDependsOnSlice(s, s', tx);
    case DropEvent(sender, nonce) => DropDependsOnSlice(s, s', sender, nonce);
  }

  lemma SubmitDependsOnSlice(s: State, s': State, tx: SignedTransaction)
    requires SliceOf(s, tx.payload.from_) == SliceOf(s', tx.payload.from_)
    ensures Submit(s, tx).Ok? <==> Submit(s', tx).Ok?
    ensures SliceOf(Step(s, SubmitEvent(tx)), tx.payload.from_) == SliceOf(Step(s', SubmitEvent(tx)), tx.payload.from_)
  {
    hide VerifySignedTx, Covers;
    SlicePool(s, s', KeyOf(tx));
    if Submit(s, tx).Ok? {
      var a := tx.payload.from_;
      InsertedSlice(s, KeyOf(tx), tx);
      InsertedSlice(s', KeyOf(tx), tx);
    }
  }

  lemma InsertedSlice(s: State, k: Key, tx: SignedTransaction)
    ensures SliceOf(s.(mempool := s.mempool[k := tx]), k.sender).pool == SliceOf(s, k.sender).pool[k := tx]
  {
  }

  lemma RemovedSlice(s: State, k: Key)
    ensures SliceOf(s.(mempool := s.mempool - {k}), k.sender).pool == SliceOf(s, k.sender).pool - {k}
  {
  }

  lemma DropDependsOnSlice(s: State, s': State, sender: Bytes, nonce: u64)
    requires SliceOf(s, sender) == SliceOf(s', sender)
    ensures Drop(s, sender, nonce).Ok? <==> Drop(s', sender, nonce).Ok?
    ensures SliceOf(Step(s, DropEvent(sender, nonce)), sender) == SliceOf(Step(s', DropEvent(sender, nonce)), sender)
  {
    var k := Key(sender, nonce);
    SlicePool(s, s', k);
    RemovedSlice(s, k);
    RemovedSlice(s', k);
  }

  /** A sender's own calls, in order. */
  ghost function CallsOf(es: seq<Event>, a: Bytes): seq<Event>
    requires NoMining(es)
    ensures NoMining(CallsOf(es, a))
  {
    if es == [] then [] else CallsOf(Init(es), a) + if Owner(Last(es)) == a then [Last(es)] else []
  }

  /** A sender's part after any interleaving is what its own calls alone would leave. */
  lemma {:induction false} RunProjects(s: State, es: seq<Event>, a: Bytes)
    requires NoMining(es)
    ensures SliceOf(Run(s, es), a) == SliceOf(Run(s, CallsOf(es, a)), a)
  {
    hide SliceOf, Step;
    if es != [] {
      RunProjects(s, Init(es), a);
      if Owner(Last(es)) == a {
        assert Init(CallsOf(es, a)) == CallsOf(Init(es), a) && Last(CallsOf(es, a)) == Last(es);
        DependsOnSlice(Run(s, Init(es)), Run(s, CallsOf(Init(es), a)), Last(es));
      } else {
        assert CallsOf(es, a) == CallsOf(Init(es), a);
        OthersUntouched(Run(s, Init(es)), Last(es), a);
      }
    }
  }

  ghost predicate AllAccepted(s: State, es: seq<Event>)
    requires NoMining(es)
  {
    es == [] || (AllAccepted(s, Init(es)) && Accepts(Run(s, Init(es)), Last(es)))
  }

  ghost predicate EachAccepted(s: State, es: seq<Event>)
    requires NoMining(es)
  {
    forall a :: AllAccepted(s, CallsOf(es, a))
  }

  lemma AcceptedAt(s: State, es: seq<Event>, a: Bytes)
    requires NoMining(es) && es != []
    ensures AllAccepted(s, CallsOf(es, a))
            <==> AllAccepted(s, CallsOf(Init(es), a)) && (a == Owner(Last(es)) ==> Accepts(Run(s, Init(es)), Last(es)))
  {
    hide Accepts, SliceOf, Step;
    if a == Owner(Last(es)) {
      RunProjects(s, Init(es), a);
      DependsOnSlice(Run(s, Init(es)), Run(s, CallsOf(Init(es), a)), Last(es));
      assert Init(CallsOf(es, a)) == CallsOf(Init(es), a) && Last(CallsOf(es, a)) == Last(es);
    } else {
      assert CallsOf(es, a) == CallsOf(Init(es), a);
    }
  }

  lemma EachAcceptedStep(s: State, es: seq<Event>)
    requires NoMining(es) && es != []
    ensures EachAccepted(s, es) <==> EachAccepted(s, Init(es)) && Accepts(Run(s, Init(es)), Last(es))
  {
    hide Accepts, AllAccepted, CallsOf, Run;
    forall a
      ensures AllAccepted(s, CallsOf(es, a))
              <==> AllAccepted(s, CallsOf(Init(es), a)) && (a == Owner(Last(es)) ==> Accepts(Run(s, Init(es)), Last(es)))
    {
      AcceptedAt(s, es, a);
    }
    if EachAccepted(s, es) {
      assert AllAccepted(s, CallsOf(es, Owner(Last(es))));
      forall a
        ensures AllAccepted(s, CallsOf(Init(es), a))
      {
        assert AllAccepted(s, CallsOf(es, a));
      }
    }
  }

  /** An interleaving is accepted throughout exactly when each sender's own calls are. */
  lemma {:induction false} AcceptanceProjects(s: State, es: seq<Event>)
    requires NoMining(es)
    ensures AllAccepted(s, es) <==> EachAccepted(s, es)
  {
    if es == [] {
      assert forall a :: CallsOf(es, a) == [] && AllAccepted(s, CallsOf(es, a));
    } else {
      hide Accepts, EachAccepted, CallsOf, Run;
      AcceptanceProjects(s, Init(es));
      EachAcceptedStep(s, es);
    }
  }

  lemma {:induction false} RestUntouched(s: State, es: seq<Event>)
    requires NoMining(es)
    ensures var s' := Run(s, es); s' == s.(accounts := s'.accounts, mempool := s'.mempool)
  {
    if es != [] {
      RestUntouched(s, Init(es));
      StepKeepsChain(Run(s, Init(es)), Last(es));
    }
  }

  lemma SlicesDetermine(s: State, s': State)
    requires forall a :: SliceOf(s, a) == SliceOf(s', a)
    ensures s.accounts == s'.accounts && s.mempool == s'.mempool
  {
    forall a
      ensures a in s.accounts <==> a in s'.accounts
      ensures a in s.accounts ==> s.accounts[a] == s'.accounts[a]
    {
      assert SliceOf(s, a) == SliceOf(s', a);
    }
    forall k: Key
      ensures k in s.mempool <==> k in s'.mempool
      ensures k in s.mempool ==> s.mempool[k] == s'.mempool[k]
    {
      assert SliceOf(s, k.sender) == SliceOf(s', k.sender);
      SlicePool(s, s', k);
    }
  }

  /** Any two interleavings of the same calls, each sender's in its own order, reach the same state, are accepted
      alike, and let a miner produce the same block. */
  lemma InterleavingDoesNotMatter(s: State, es: seq<Event>, es': seq<Event>, miner: Bytes)
    requires NoMining(es) && NoMining(es') && forall a :: CallsOf(es, a) == CallsOf(es', a)
    ensures Run(s, es) == Run(s, es')
    ensures AllAccepted(s, es) <==> AllAccepted(s, es')
    ensures MineOutcome(Run(s, es), miner) == MineOutcome(Run(s, es'), miner)
  {
    hide SliceOf, MineOutcome, AllAccepted, Run;
    forall a
      ensures SliceOf(Run(s, es), a) == SliceOf(Run(s, es'), a)
    {
      RunProjects(s, es, a);
      RunProjects(s, es', a);
    }
    SlicesDetermine(Run(s, es), Run(s, es'));
    RestUntouched(s, es);
    RestUntouched(s, es');
    if AllAccepted(s, es) {
      AcceptedAlike(s, es, es');
    }
    if AllAccepted(s, es') {
      AcceptedAlike(s, es', es);
    }
  }

  lemma AcceptedAlike(s: State, es: seq<Event>, es': seq<Event>)
    requires NoMining(es) && NoMining(es') && forall a :: CallsOf(es, a) == CallsOf(es', a)
    requires AllAccepted(s, es)
    ensures AllAccepted(s, es')
  {
    hide AllAccepted;
    AcceptanceProjects(s, es);
    AcceptanceProjects(s, es');
    forall a
      ensures AllAccepted(s, CallsOf(es', a))
    {
      assert AllAccepted(s, CallsOf(es, a));
    }
  }

  // ---- the reservation round trip ----

  function Submits(txs: seq<SignedTransaction>): seq<Event> {
    seq(|txs|, i requires 0 <= i < |txs| => SubmitEvent(txs[i]))
  }

  /** The same transactions, dropped last first. */
  function Drops(txs: seq<SignedTransaction>): seq<Event> {
    seq(|txs|, i requires 0 <= i < |txs| => DropOf(txs[|txs| - 1 - i]))
  }

  function DropOf(tx: SignedTransaction): Event {
    DropEvent(tx.payload.from_, tx.payload.nonce)
  }

  ghost predicate PendingWithin(s: State, n: nat) {
    forall a | a in s.accounts :: s.accounts[a].pendingNonce <= n
  }

  lemma SubmitPending(s: State, tx: SignedTransaction, n: nat)
    requires PendingWithin(s, n) && n + 1 < TWO64
    ensures PendingWithin(Step(s, SubmitEvent(tx)), n + 1)
  {
    if Submit(s, tx).Ok? {
      AcceptedSubmit(s, tx);
    }
  }

  /** Dropping the transaction just accepted restores the state exactly. */
  lemma DropUndoesSubmit(s: State, tx: SignedTransaction)
    requires Submit(s, tx).Ok? && s.accounts[tx.payload.from_].pendingNonce + 1 < TWO64
    ensures Drop(Submit(s, tx).value, tx.payload.from_, tx.payload.nonce) == Ok(s)
  {
    hide VerifySignedTx;
    AcceptedSubmit(s, tx);
    var acc := s.accounts[tx.payload.from_];
    ReserveIsExact(acc, tx, Consumer);
    ReserveIsExact(acc, tx, Industrial);
    assert Release(Reserve(acc, tx), tx) == acc;
    var s' := Submit(s, tx).value;
    assert s'.mempool - {KeyOf(tx)} == s.mempool;
    assert s'.accounts[tx.payload.from_ := acc] == s.accounts;
  }

  lemma {:induction false} RunAppend(s: State, xs: seq<Event>, ys: seq<Event>)
    ensures Run(s, xs + ys) == Run(Run(s, xs), ys)
    decreases |ys|
  {
    hide Step;
    if ys == [] {
      assert xs + ys == xs;
    } else {
      RunAppend(s, xs, Init(ys));
      assert Init(xs + ys) == xs + Init(ys) && Last(xs + ys) == Last(ys);
    }
  }

  lemma {:induction false} SubmitsPending(s: State, txs: seq<SignedTransaction>, n: nat)
    requires PendingWithin(s, n) && n + |txs| < TWO64
    ensures PendingWithin(Run(s, Submits(txs)), n + |txs|)
  {
    hide PendingWithin, Step;
    if txs != [] {
      SubmitsPending(s, Init(txs), n);
      assert Init(Submits(txs)) == Submits(Init(txs)) && Last(Submits(txs)) == SubmitEvent(Last(txs));
      SubmitPending(Run(s, Submits(Init(txs))), Last(txs), n + |txs| - 1);
    }
  }

  /** Dropping, last first, every transaction of an accepted sequence restores the exact starting state. */
  lemma {:induction false} DropsUndoSubmits(s: State, txs: seq<SignedTransaction>, n: nat)
    requires AllAccepted(s, Submits(txs)) && PendingWithin(s, n) && n + |txs| < TWO64
    ensures Run(s, Submits(txs) + Drops(txs)) == s
  {
    hide Submit, PendingWithin, Step;
    if txs == [] {
      assert Submits(txs) + Drops(txs) == [];
    } else {
      var before, tx := Init(txs), Last(txs);
      var mid := Run(s, Submits(before));
      assert Init(Submits(txs)) == Submits(before) && Last(Submits(txs)) == SubmitEvent(tx);
      DropsUndoSubmits(s, before, n);
      RunAppend(s, Submits(before), Drops(before));
      LastPairCancels(s, before, tx, n);
      assert Drops(txs) == [DropOf(tx)] + Drops(before);
      RunAppend(s, Submits(txs), Drops(txs));
      RunAppend(Run(s, Submits(txs)), [DropOf(tx)], Drops(before));
    }
  }

  lemma LastPairCancels(s: State, before: seq<SignedTransaction>, tx: SignedTransaction, n: nat)
    requires PendingWithin(s, n) && n + |before| + 1 < TWO64
    requires Submit(Run(s, Submits(before)), tx).Ok?
    ensures Run(Step(Run(s, Submits(before)), SubmitEvent(tx)), [DropOf(tx)]) == Run(s, Submits(before))
  {
    hide Submit, Drop, Submits, PendingWithin;
    var mid := Run(s, Submits(before));
    AcceptedSubmit(mid, tx);
    SubmitsPending(s, before, n);
    assert mid.accounts[tx.payload.from_].pendingNonce <= n + |before| by {
      PendingAt(mid, tx.payload.from_, n + |before|);
    }
    DropUndoesSubmit(mid, tx);
    var pair := [DropOf(tx)];
    assert Init(pair) == [] && Last(pair) == DropOf(tx);
  }

  lemma PendingAt(s: State, a: Bytes, n: nat)
    requires PendingWithin(s, n)
    ensures a in s.accounts ==> s.accounts[a].pendingNonce <= n
  {
  }

  /** And other senders' calls in between change nothing: a sender whose own calls are an accepted sequence of
      submissions and then their drops, last first, ends exactly where it began. */
  lemma RoundTripAmongOthers(s: State, es: seq<Event>, a: Bytes, txs: seq<SignedTransaction>, n: nat)
    requires NoMining(es) && CallsOf(es, a) == Submits(txs) + Drops(txs)
    requires AllAccepted(s, Submits(txs)) && PendingWithin(s, n) && n + |txs| < TWO64
    ensures SliceOf(Run(s, es), a) == SliceOf(s, a)
  {
    hide SliceOf, Run, AllAccepted;
    RunProjects(s, es, a);
    DropsUndoSubmits(s, txs, n);
  }
}
