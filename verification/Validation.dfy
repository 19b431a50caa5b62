/** What makes a block and a chain valid, and the single-pass checks that decide it (src/lib.rs:807-915, 1149-1259). */
module Validation {
  import opened Machine
  import opened Fee
  import opened Encoding
  import opened Crypto
  import opened Transaction
  import opened HashLayout
  import opened ProofOfWork
  import opened Order
  import opened Ledger
  import opened Settlement

  // ---- the declarative predicates ----

  /** Linked to `prev`, at the expected difficulty, opened by a coinbase that the header repeats, hashed over its
      own fields, and past the proof-of-work target. */
  ghost predicate ValidHeader(b: Block, prev: Bytes, difficulty: u64, target: nat) {
    && b.previousHash == prev
    && b.difficulty == difficulty
    && b.transactions != []
    && b.transactions[0].payload.from_ == COINBASE
    && b.transactions[0].payload.amountConsumer == b.coinbaseConsumer
    && b.transactions[0].payload.amountIndustrial == b.coinbaseIndustrial
    && b.hash == BlockHash(b)
    && MeetsTarget(EncoderOf(b), target)
  }

  /** The header commits to the summed fees, and the coinbase covers them. */
  ghost predicate FeesMatch(b: Block, feeC: nat, feeI: nat) {
    && feeC < TWO64 && feeI < TWO64
    && b.feeChecksum == FeeChecksum(feeC, feeI)
    && feeC <= b.coinbaseConsumer && feeI <= b.coinbaseIndustrial
  }

  /** A sender's transactions in a block carry consecutive nonces: between any two of them the nonce moves on by
      the number of its transactions in between (the counter is a machine word). */
  ghost predicate NonceFollows(txs: seq<SignedTransaction>, i: nat, j: nat)
    requires i < j < |txs|
  {
    (txs[i].payload.nonce + ListCount(txs[i..j], txs[j].payload.from_)) % TWO64 == txs[j].payload.nonce
  }

  /** No earlier transaction has this one's id. */
  ghost predicate IdFresh(txs: seq<SignedTransaction>, j: nat)
    requires j < |txs|
  {
    forall i | 0 <= i < j :: TxId(txs[i]) != TxId(txs[j])
  }

  /** What a chain's `j`-th non-coinbase transaction must satisfy. */
  ghost predicate TxValid(txs: seq<SignedTransaction>, j: nat)
    requires j < |txs|
  {
    && Decompose(txs[j].payload.feeSelector, txs[j].payload.fee).Ok?
    && IdFresh(txs, j)
    && (txs[j].payload.from_ != COINBASE ==>
          && VerifySignedTx(txs[j])
          && forall i | 0 <= i < j && txs[i].payload.from_ == txs[j].payload.from_ :: NonceFollows(txs, i, j))
  }

  ghost predicate ValidBlock(b: Block, prev: Bytes, difficulty: nat) {
    && difficulty < TWO64
    && ValidHeader(b, prev, difficulty, difficulty)
    && var txs := b.transactions[1..];
       && (forall j | 0 <= j < |txs| :: TxValid(txs, j))
       && FeesMatch(b, ListFee(txs, Consumer), ListFee(txs, Industrial))
  }

  ghost predicate ValidChain(chain: seq<Block>, difficulty: nat) {
    forall i | 0 <= i < |chain| :: ValidBlock(chain[i], PreviousHash(chain[..i]), difficulty)
  }

  // ---- the `seen_nonce` set decides nothing ----

  /** No earlier transaction of the same sender carries the same nonce. */
  ghost predicate PairFresh(txs: seq<SignedTransaction>, j: nat)
    requires j < |txs|
  {
    txs[j].payload.from_ != COINBASE ==> forall i | 0 <= i < j :: KeyOf(txs[i]) != KeyOf(txs[j])
  }

  /** Consecutive nonces are distinct in any list shorter than the word size. */
  lemma SeenNonceIsImplied(txs: seq<SignedTransaction>, j: nat)
    requires j < |txs| < TWO64 && TxValid(txs, j)
    ensures PairFresh(txs, j)
  {
    var a := txs[j].payload.from_;
    if a != COINBASE {
      forall i | 0 <= i < j
        ensures KeyOf(txs[i]) != KeyOf(txs[j])
      {
        if txs[i].payload.from_ == a {
          assert NonceFollows(txs, i, j);
          CountWithin(txs[i..j], a);
          assert txs[i..j][0].payload.from_ == a;
          WrapMoves(txs[i].payload.nonce, ListCount(txs[i..j], a));
        }
      }
    }
  }

  lemma WrapMoves(x: u64, n: nat)
    requires 0 < n < TWO64
    ensures (x + n) % TWO64 != x
  {
  }

  lemma {:induction false} CountWithin(txs: seq<SignedTransaction>, a: Bytes)
    ensures ListCount(txs, a) <= |txs|
    ensures txs != [] && txs[0].payload.from_ == a ==> ListCount(txs, a) >= 1
  {
    if txs != [] {
      CountWithin(txs[1..], a);
    }
  }

  // ---- sums over prefixes ----

  lemma {:induction false} CountAppend(xs: seq<SignedTransaction>, ys: seq<SignedTransaction>, a: Bytes)
    ensures ListCount(xs + ys, a) == ListCount(xs, a) + ListCount(ys, a)
  {
    if xs == [] {
      assert xs + ys == ys;
    } else {
      CountAppend(xs[1..], ys, a);
      assert (xs + ys)[1..] == xs[1..] + ys;
    }
  }

  lemma SliceSnoc<T>(xs: seq<T>, i: nat, j: nat)
    requires i <= j < |xs|
    ensures xs[i..j + 1] == xs[i..j] + [xs[j]]
  {
  }

  lemma CountSnoc(txs: seq<SignedTransaction>, i: nat, j: nat, a: Bytes)
    requires i <= j < |txs|
    ensures ListCount(txs[i..j + 1], a) == ListCount(txs[i..j], a) + (if txs[j].payload.from_ == a then 1 else 0)
  {
    SliceSnoc(txs, i, j);
    CountAppend(txs[i..j], [txs[j]], a);
    CountOne(txs[j], a);
  }

  lemma CountOne(tx: SignedTransaction, a: Bytes)
    ensures ListCount([tx], a) == if tx.payload.from_ == a then 1 else 0
  {
  }

  lemma CountNone(txs: seq<SignedTransaction>, i: nat, a: Bytes)
    requires i <= |txs|
    ensures ListCount(txs[i..i], a) == 0
  {
  }

  lemma {:induction false} FeeAppend(xs: seq<SignedTransaction>, ys: seq<SignedTransaction>, t: Token)
    ensures ListFee(xs + ys, t) == ListFee(xs, t) + ListFee(ys, t)
  {
    if xs == [] {
      assert xs + ys == ys;
    } else {
      FeeAppend(xs[1..], ys, t);
      assert (xs + ys)[1..] == xs[1..] + ys;
    }
  }

  lemma FeeSnoc(txs: seq<SignedTransaction>, i: nat, t: Token)
    requires i < |txs|
    ensures ListFee(txs[..i + 1], t) == ListFee(txs[..i], t) + FeeOf(txs[i], t)
  {
    hide FeeOf;
    SliceSnoc(txs, 0, i);
    FeeAppend(txs[..i], [txs[i]], t);
    assert txs[0..i] == txs[..i] && txs[0..i + 1] == txs[..i + 1];
    assert ListFee([txs[i]][1..], t) == 0;
  }

  // ---- header checks ----

  method CheckHeader(b: Block, prev: Bytes, difficulty: u64, target: nat) returns (ok: bool)
    ensures ok <==> ValidHeader(b, prev, difficulty, target)
  {
    if b.previousHash != prev || b.difficulty != difficulty {
      return false;
    }
    if b.transactions == [] || b.transactions[0].payload.from_ != COINBASE {
      return false;
    }
    var coinbase := b.transactions[0].payload;
    if coinbase.amountConsumer != b.coinbaseConsumer || coinbase.amountIndustrial != b.coinbaseIndustrial {
      return false;
    }
    var computed := CalculateHash(b);
    if computed != b.hash {
      return false;
    }
    HexRoundTrip(Blake3(EncoderOf(b).Preimage()));
    var bytes := HexToBytes(b.hash);
    var zeros := CountLeadingZeroBits(bytes.value);
    return zeros >= target;
  }

  method CalculateHash(b: Block) returns (h: Bytes)
    ensures h == BlockHash(b)
  {
    var ids: seq<seq<byte>> := [];
    var i := 0;
    while i < |b.transactions|
      invariant 0 <= i <= |b.transactions|
      invariant ids == Ids(b.transactions)[..i]
    {
      var id := ComputeId(b.transactions[i]);
      ids := ids + [id];
      i := i + 1;
    }
    assert ids == Ids(b.transactions);
    var enc := EncoderOf(b).(txIds := ids);
    h := enc.Hash();
  }

  // ---- is_valid_chain_rust ----

  /** The running counters: one per sender met so far, one past its last nonce. */
  ghost predicate Tracks(expected: map<Bytes, u64>, txs: seq<SignedTransaction>, n: nat)
    requires n <= |txs|
  {
    && (forall a | a in expected :: a != COINBASE && exists j :: 0 <= j < n && txs[j].payload.from_ == a)
    && (forall j | 0 <= j < n && txs[j].payload.from_ != COINBASE :: TracksFrom(expected, txs, j, n))
  }

  ghost predicate TracksFrom(expected: map<Bytes, u64>, txs: seq<SignedTransaction>, j: nat, n: nat)
    requires j < n <= |txs|
  {
    var a := txs[j].payload.from_;
    a in expected && expected[a] == (txs[j].payload.nonce + ListCount(txs[j..n], a)) % TWO64
  }

  /** A nonce equal to the counter is a nonce that follows every earlier one. */
  lemma CounterDecides(expected: map<Bytes, u64>, txs: seq<SignedTransaction>, n: nat)
    requires n < |txs| && Tracks(expected, txs, n) && txs[n].payload.from_ != COINBASE
    ensures var a := txs[n].payload.from_;
      (a in expected ==> txs[n].payload.nonce == expected[a])
      <==> forall i | 0 <= i < n && txs[i].payload.from_ == a :: NonceFollows(txs, i, n)
  {
    hide ListCount;
    var a := txs[n].payload.from_;
    forall i | 0 <= i < n && txs[i].payload.from_ == a
      ensures a in expected && (NonceFollows(txs, i, n) <==> txs[n].payload.nonce == expected[a])
    {
      assert TracksFrom(expected, txs, i, n);
    }
  }

  lemma TracksSkip(expected: map<Bytes, u64>, txs: seq<SignedTransaction>, n: nat)
    requires n < |txs| && Tracks(expected, txs, n) && txs[n].payload.from_ == COINBASE
    ensures Tracks(expected, txs, n + 1)
  {
    hide ListCount;
    forall j | 0 <= j < n + 1 && txs[j].payload.from_ != COINBASE
      ensures TracksFrom(expected, txs, j, n + 1)
    {
      assert TracksFrom(expected, txs, j, n);
      CountSnoc(txs, j, n, txs[j].payload.from_);
    }
  }

  lemma TracksNext(expected: map<Bytes, u64>, txs: seq<SignedTransaction>, n: nat)
    requires n < |txs| && Tracks(expected, txs, n) && txs[n].payload.from_ != COINBASE
    requires var a := txs[n].payload.from_; a in expected ==> txs[n].payload.nonce == expected[a]
    ensures Tracks(expected[txs[n].payload.from_ := Add64(txs[n].payload.nonce, 1)], txs, n + 1)
  {
    hide ListCount;
    var a := txs[n].payload.from_;
    var after := expected[a := Add64(txs[n].payload.nonce, 1)];
    forall j | 0 <= j < n + 1 && txs[j].payload.from_ != COINBASE
      ensures TracksFrom(after, txs, j, n + 1)
    {
      CountSnoc(txs, j, n, txs[j].payload.from_);
      if j < n {
        assert TracksFrom(expected, txs, j, n);
        if txs[j].payload.from_ == a {
          WrapNext(txs[j].payload.nonce + ListCount(txs[j..n], a));
        }
      } else {
        CountNone(txs, n, a);
        WrapNext(txs[n].payload.nonce);
      }
    }
    forall b | b in after
      ensures b != COINBASE && exists j :: 0 <= j < n + 1 && txs[j].payload.from_ == b
    {
      if b == a {
        assert txs[n].payload.from_ == b;
      }
    }
  }

  lemma WordIsItself(x: nat)
    requires x < TWO64
    ensures x % TWO64 == x
  {
  }

  lemma WrapNext(x: nat)
    ensures Add64(x % TWO64, 1) == (x + 1) % TWO64
  {
  }

  ghost predicate SeenIds(seen: set<Digest>, txs: seq<SignedTransaction>, n: nat)
    requires n <= |txs|
  {
    && (forall j | 0 <= j < n :: TxId(txs[j]) in seen)
    && (forall id | id in seen :: exists j :: 0 <= j < n && TxId(txs[j]) == id)
  }

  lemma SeenIdsNext(seen: set<Digest>, txs: seq<SignedTransaction>, n: nat)
    requires n < |txs| && SeenIds(seen, txs, n)
    ensures SeenIds(seen + {TxId(txs[n])}, txs, n + 1)
    ensures TxId(txs[n]) !in seen <==> IdFresh(txs, n)
  {
  }

  ghost predicate SeenPairs(seen: set<Key>, txs: seq<SignedTransaction>, n: nat)
    requires n <= |txs|
  {
    && (forall j | 0 <= j < n && txs[j].payload.from_ != COINBASE :: KeyOf(txs[j]) in seen)
    && (forall k | k in seen :: exists j :: 0 <= j < n && KeyOf(txs[j]) == k)
  }

  lemma SeenPairsNext(seen: set<Key>, txs: seq<SignedTransaction>, n: nat)
    requires n < |txs| && SeenPairs(seen, txs, n)
    ensures txs[n].payload.from_ == COINBASE ==> SeenPairs(seen, txs, n + 1) && PairFresh(txs, n)
    ensures SeenPairs(seen + {KeyOf(txs[n])}, txs, n + 1)
    ensures txs[n].payload.from_ != COINBASE ==> (KeyOf(txs[n]) !in seen <==> PairFresh(txs, n))
  {
  }

  ghost predicate BodyPasses(txs: seq<SignedTransaction>) {
    forall j | 0 <= j < |txs| :: TxValid(txs, j) && PairFresh(txs, j)
  }

  lemma NothingSeen(txs: seq<SignedTransaction>)
    ensures Tracks(map[], txs, 0) && SeenIds({}, txs, 0) && SeenPairs({}, txs, 0)
    ensures ListFee(txs[..0], Consumer) == 0 && ListFee(txs[..0], Industrial) == 0
  {
  }

  /** The loop over a chain block's non-coinbase transactions. */
  method CheckChainBody(txs: seq<SignedTransaction>) returns (ok: bool, feeC: nat, feeI: nat)
    ensures ok <==> BodyPasses(txs)
    ensures ok ==> feeC == ListFee(txs, Consumer) && feeI == ListFee(txs, Industrial)
  {
    hide Tracks, SeenIds, SeenPairs, PairFresh, IdFresh, NonceFollows, VerifySignedTx, TxId, ListFee;
    var expected: map<Bytes, u64> := map[];
    var seen: set<Digest> := {};
    var seenNonce: set<Key> := {};
    ok, feeC, feeI := false, 0, 0;
    NothingSeen(txs);
    var i := 0;
    while i < |txs|
      invariant 0 <= i <= |txs|
      invariant forall j | 0 <= j < i :: TxValid(txs, j) && PairFresh(txs, j)
      invariant Tracks(expected, txs, i) && SeenIds(seen, txs, i) && SeenPairs(seenNonce, txs, i)
      invariant feeC == ListFee(txs[..i], Consumer) && feeI == ListFee(txs[..i], Industrial)
      invariant !ok
    {
      var tx := txs[i];
      SeenIdsNext(seen, txs, i);
      SeenPairsNext(seenNonce, txs, i);
      FeeSnoc(txs, i, Consumer);
      FeeSnoc(txs, i, Industrial);
      if tx.payload.from_ != COINBASE {
        if !VerifySignedTx(tx) {
          return;
        }
        CounterDecides(expected, txs, i);
        var next := if tx.payload.from_ in expected then expected[tx.payload.from_] else tx.payload.nonce;
        if tx.payload.nonce != next {
          return;
        }
        TracksNext(expected, txs, i);
        expected := expected[tx.payload.from_ := Add64(next, 1)];
        if KeyOf(tx) in seenNonce {
          return;
        }
        seenNonce := seenNonce + {KeyOf(tx)};
      } else {
        TracksSkip(expected, txs, i);
      }
      var id := ComputeId(tx);
      if id in seen {
        return;
      }
      seen := seen + {id};
      var split := Decompose(tx.payload.feeSelector, tx.payload.fee);
      if split.Err? {
        return;
      }
      feeC := feeC + split.value.ct;
      feeI := feeI + split.value.it;
      i := i + 1;
    }
    assert txs[..i] == txs;
    ok := true;
  }

  /** `is_valid_chain_rust` decides exactly `ValidChain`. A `Vec` is shorter than the word size. */
  method IsValidChain(chain: seq<Block>, difficulty: nat) returns (ok: bool)
    requires difficulty < TWO32
    requires forall i | 0 <= i < |chain| :: |chain[i].transactions| < TWO64
    ensures ok <==> ValidChain(chain, difficulty)
  {
    hide ValidBlock;
    var i := 0;
    while i < |chain|
      invariant 0 <= i <= |chain|
      invariant forall k | 0 <= k < i :: ValidBlock(chain[k], PreviousHash(chain[..k]), difficulty)
    {
      var b := chain[i];
      var prev := if i == 0 then ZERO_HASH else chain[i - 1].hash;
      assert prev == PreviousHash(chain[..i]);
      var good := CheckChainBlock(b, prev, difficulty);
      if !good {
        return false;
      }
      i := i + 1;
    }
    return true;
  }

  method CheckChainBlock(b: Block, prev: Bytes, difficulty: nat) returns (ok: bool)
    requires difficulty < TWO32 && |b.transactions| < TWO64
    ensures ok <==> ValidBlock(b, prev, difficulty)
  {
    var header := CheckHeader(b, prev, difficulty, difficulty);
    if !header {
      return false;
    }
    var txs := b.transactions[1..];
    var body, feeC, feeI := CheckChainBody(txs);
    if !body {
      forall j | 0 <= j < |txs| && TxValid(txs, j)
        ensures PairFresh(txs, j)
      {
        SeenNonceIsImplied(txs, j);
      }
      return false;
    }
    if feeC >= TWO64 || feeI >= TWO64 || FeeChecksum(feeC, feeI) != b.feeChecksum {
      return false;
    }
    return feeC <= b.coinbaseConsumer && feeI <= b.coinbaseIndustrial;
  }

  // ---- validate_block ----

  datatype ValidateError = MissingPreviousBlock | FeeTotalOverflow

  /** Where the block's first transaction of a sender follows on: the account's nonce has already moved past all
      of them. */
  ghost function StartNonce(accts: Accounts, txs: seq<SignedTransaction>, a: Bytes): nat {
    var n := ListCount(txs, a);
    if n <= NonceAt(accts, a) then NonceAt(accts, a) - n else 0
  }

  /** A sender's `k`-th transaction in the block has nonce `start + k`. */
  ghost predicate NonceInPlace(accts: Accounts, txs: seq<SignedTransaction>, j: nat)
    requires j < |txs|
  {
    var a := txs[j].payload.from_;
    a != COINBASE ==> txs[j].payload.nonce == StartNonce(accts, txs, a) + ListCount(txs[..j + 1], a)
  }

  ghost predicate FeesDecompose(txs: seq<SignedTransaction>) {
    forall j | 0 <= j < |txs| :: Decompose(txs[j].payload.feeSelector, txs[j].payload.fee).Ok?
  }

  ghost predicate InPlace(accts: Accounts, txs: seq<SignedTransaction>) {
    forall j | 0 <= j < |txs| :: NonceInPlace(accts, txs, j) && IdFresh(txs, j)
  }

  /** The hash a block at this index must link to; `None` past the end of the chain. */
  function ExpectedPrevious(chain: seq<Block>, index: u64): Option<Bytes> {
    if index == 0 then Some(ZERO_HASH)
    else if index - 1 < |chain| then Some(chain[index - 1].hash)
    else None
  }

  /** `validate_block`'s answer. */
  ghost function ValidateAnswer(chain: seq<Block>, accts: Accounts, difficulty: u64, b: Block): Result<bool, ValidateError> {
    match ExpectedPrevious(chain, b.index)
    case None => Err(MissingPreviousBlock)
    case Some(prev) =>
      if !ValidHeader(b, prev, difficulty, difficulty % TWO32) then Ok(false)
      else
        var body := b.transactions[1..];
        if !FeesDecompose(body) || !InPlace(accts, b.transactions) then Ok(false)
        else if ListFee(body, Consumer) >= TWO64 || ListFee(body, Industrial) >= TWO64 then Err(FeeTotalOverflow)
        else Ok(FeesMatch(b, ListFee(body, Consumer), ListFee(body, Industrial)))
  }

  ghost predicate CountsUpTo(counts: map<Bytes, u64>, txs: seq<SignedTransaction>, n: nat)
    requires n <= |txs|
  {
    && (forall a | a in counts :: a != COINBASE && counts[a] == ListCount(txs[..n], a) > 0)
    && (forall a | a != COINBASE && ListCount(txs[..n], a) > 0 :: a in counts)
  }

  lemma CountsNext(counts: map<Bytes, u64>, txs: seq<SignedTransaction>, n: nat)
    requires n < |txs| < TWO64 && CountsUpTo(counts, txs, n)
    ensures var a := txs[n].payload.from_; var c := if a in counts then counts[a] else 0;
      && c + 1 < TWO64
      && CountsUpTo(if a != COINBASE then counts[a := c + 1] else counts, txs, n + 1)
  {
    CountWithin(txs[..n], txs[n].payload.from_);
    forall a
      ensures ListCount(txs[..n + 1], a) == ListCount(txs[..n], a) + if txs[n].payload.from_ == a then 1 else 0
    {
      CountSnoc(txs, 0, n, a);
      assert txs[0..n] == txs[..n] && txs[0..n + 1] == txs[..n + 1];
    }
  }

  /** The first pass: count each sender's transactions and add up the fees. */
  method CountSenders(txs: seq<SignedTransaction>) returns (ok: bool, counts: map<Bytes, u64>, feeC: nat, feeI: nat)
    requires |txs| < TWO64
    ensures ok <==> FeesDecompose(txs)
    ensures ok ==> CountsUpTo(counts, txs, |txs|)
    ensures ok ==> feeC == ListFee(txs, Consumer) && feeI == ListFee(txs, Industrial)
  {
    hide CountsUpTo, ListFee, ListCount;
    ok, counts, feeC, feeI := false, map[], 0, 0;
    NothingCounted(txs);
    var i := 0;
    while i < |txs|
      invariant 0 <= i <= |txs| && !ok
      invariant CountsUpTo(counts, txs, i)
      invariant forall j | 0 <= j < i :: Decompose(txs[j].payload.feeSelector, txs[j].payload.fee).Ok?
      invariant feeC == ListFee(txs[..i], Consumer) && feeI == ListFee(txs[..i], Industrial)
    {
      var tx := txs[i];
      CountsNext(counts, txs, i);
      FeeSnoc(txs, i, Consumer);
      FeeSnoc(txs, i, Industrial);
      if tx.payload.from_ != COINBASE {
        var c := if tx.payload.from_ in counts then counts[tx.payload.from_] else 0;
        counts := counts[tx.payload.from_ := c + 1];
      }
      var split := Decompose(tx.payload.feeSelector, tx.payload.fee);
      if split.Err? {
        return;
      }
      feeC := feeC + split.value.ct;
      feeI := feeI + split.value.it;
      i := i + 1;
    }
    assert txs[..i] == txs;
    ok := true;
  }

  lemma NothingCounted(txs: seq<SignedTransaction>)
    ensures CountsUpTo(map[], txs, 0)
    ensures ListFee(txs[..0], Consumer) == 0 && ListFee(txs[..0], Industrial) == 0
  {
  }

  /** `expected` holds, for every sender of the list, the nonce its last transaction among the first `n` has. */
  ghost predicate StartsFrom(expected: map<Bytes, u64>, accts: Accounts, txs: seq<SignedTransaction>, n: nat)
    requires n <= |txs|
  {
    forall a | a != COINBASE && ListCount(txs, a) > 0 ::
      a in expected && expected[a] == StartNonce(accts, txs, a) + ListCount(txs[..n], a)
  }

  /** Between the passes: where each counted sender starts. */
  method StartNonces(accts: Accounts, counts: map<Bytes, u64>) returns (expected: map<Bytes, u64>)
    ensures expected == map a | a in counts :: SatSub(NonceAt(accts, a), counts[a])
  {
    expected := map[];
    var todo := counts.Keys;
    while todo != {}
      invariant todo <= counts.Keys
      invariant expected == map a | a in counts && a !in todo :: SatSub(NonceAt(accts, a), counts[a])
      decreases todo
    {
      var a :| a in todo;
      expected := expected[a := SatSub(NonceAt(accts, a), counts[a])];
      todo := todo - {a};
    }
  }

  lemma StartsFromCounts(expected: map<Bytes, u64>, counts: map<Bytes, u64>, accts: Accounts, txs: seq<SignedTransaction>)
    requires txs != [] && txs[0].payload.from_ == COINBASE
    requires CountsUpTo(counts, txs[1..], |txs[1..]|)
    requires expected == map a | a in counts :: SatSub(NonceAt(accts, a), counts[a])
    ensures StartsFrom(expected, accts, txs, 0)
  {
    assert txs[1..][..|txs[1..]|] == txs[1..];
    forall a | a != COINBASE && ListCount(txs, a) > 0
      ensures a in expected && expected[a] == StartNonce(accts, txs, a) + ListCount(txs[..0], a)
    {
      assert ListCount(txs, a) == ListCount(txs[1..], a);
    }
  }

  /** Each transaction finds the counter at its predecessor, and moves it on without wrapping. */
  lemma CounterAt(expected: map<Bytes, u64>, accts: Accounts, txs: seq<SignedTransaction>, n: nat)
    requires n < |txs| < TWO64 && StartsFrom(expected, accts, txs, n)
    ensures var a := txs[n].payload.from_;
      if a == COINBASE then StartsFrom(expected, accts, txs, n + 1)
      else
        && a in expected && expected[a] + 1 < TWO64
        && (NonceInPlace(accts, txs, n) <==> txs[n].payload.nonce == expected[a] + 1)
        && StartsFrom(expected[a := expected[a] + 1], accts, txs, n + 1)
  {
    hide ListCount;
    var a := txs[n].payload.from_;
    forall b
      ensures ListCount(txs[..n + 1], b) == ListCount(txs[..n], b) + if a == b then 1 else 0
    {
      CountSnoc(txs, 0, n, b);
      assert txs[0..n] == txs[..n] && txs[0..n + 1] == txs[..n + 1];
    }
    assert ListCount(txs, a) == ListCount(txs[..n + 1], a) + ListCount(txs[n + 1..], a) by {
      CountAppend(txs[..n + 1], txs[n + 1..], a);
      assert txs[..n + 1] + txs[n + 1..] == txs;
    }
    CountWithin(txs, a);
    assert ListCount(txs[..n + 1], a) == ListCount(txs[..n], a) + 1;
    if a != COINBASE {
      assert a in expected && expected[a] == StartNonce(accts, txs, a) + ListCount(txs[..n], a);
      assert StartNonce(accts, txs, a) + ListCount(txs, a) < TWO64;
    }
  }

  /** The nonces of a sender in place are distinct. */
  lemma InPlaceIsFresh(accts: Accounts, txs: seq<SignedTransaction>, j: nat)
    requires j < |txs| && forall i | 0 <= i <= j :: NonceInPlace(accts, txs, i)
    ensures PairFresh(txs, j)
  {
    var a := txs[j].payload.from_;
    if a != COINBASE {
      forall i | 0 <= i < j
        ensures KeyOf(txs[i]) != KeyOf(txs[j])
      {
        if txs[i].payload.from_ == a {
          assert NonceInPlace(accts, txs, i) && NonceInPlace(accts, txs, j);
          CountAppend(txs[..i + 1], txs[i + 1..j + 1], a);
          assert txs[..i + 1] + txs[i + 1..j + 1] == txs[..j + 1];
          CountSnoc(txs, i + 1, j, a);
        }
      }
    }
  }

  /** The first `n` transactions pass all three tests of the second pass. */
  ghost predicate PassesUpTo(accts: Accounts, txs: seq<SignedTransaction>, n: nat)
    requires n <= |txs|
  {
    forall j | 0 <= j < n :: NonceInPlace(accts, txs, j) && PairFresh(txs, j) && IdFresh(txs, j)
  }

  lemma NothingToPass(accts: Accounts, txs: seq<SignedTransaction>)
    ensures PassesUpTo(accts, txs, 0)
  {
  }

  lemma PassesNext(accts: Accounts, txs: seq<SignedTransaction>, n: nat)
    requires n < |txs| && PassesUpTo(accts, txs, n)
    ensures PassesUpTo(accts, txs, n + 1) <==> NonceInPlace(accts, txs, n) && PairFresh(txs, n) && IdFresh(txs, n)
    ensures PassesUpTo(accts, txs, |txs|) ==> PassesUpTo(accts, txs, n + 1)
    ensures txs[n].payload.from_ == COINBASE ==> NonceInPlace(accts, txs, n)
  {
  }

  /** The second pass: the running counter and the two seen-sets, over the coinbase too. */
  method CheckInPlace(ghost accts: Accounts, txs: seq<SignedTransaction>, start: map<Bytes, u64>) returns (ok: bool)
    requires |txs| < TWO64 && StartsFrom(start, accts, txs, 0)
    ensures ok <==> PassesUpTo(accts, txs, |txs|)
  {
    hide PassesUpTo, StartsFrom, SeenIds, SeenPairs, NonceInPlace, PairFresh, IdFresh, TxId;
    var expected: map<Bytes, u64> := start;
    var seen: set<Digest> := {};
    var seenNonce: set<Key> := {};
    NothingSeen(txs);
    NothingToPass(accts, txs);
    var i := 0;
    while i < |txs|
      invariant 0 <= i <= |txs| && PassesUpTo(accts, txs, i)
      invariant StartsFrom(expected, accts, txs, i) && SeenIds(seen, txs, i) && SeenPairs(seenNonce, txs, i)
    {
      var tx := txs[i];
      CounterAt(expected, accts, txs, i);
      SeenIdsNext(seen, txs, i);
      SeenPairsNext(seenNonce, txs, i);
      PassesNext(accts, txs, i);
      if tx.payload.from_ != COINBASE {
        var next := Add64(if tx.payload.from_ in expected then expected[tx.payload.from_] else 0, 1);
        expected := expected[tx.payload.from_ := next];
        if tx.payload.nonce != next {
          return false;
        }
        if KeyOf(tx) in seenNonce {
          return false;
        }
        seenNonce := seenNonce + {KeyOf(tx)};
      }
      var id := ComputeId(tx);
      if id in seen {
        return false;
      }
      seen := seen + {id};
      i := i + 1;
    }
    return true;
  }

  /** `validate_block` against a node's chain, accounts and difficulty. */
  method ValidateBlock(chain: seq<Block>, accts: Accounts, difficulty: u64, b: Block)
    returns (r: Result<bool, ValidateError>)
    requires |b.transactions| < TWO64
    ensures r == ValidateAnswer(chain, accts, difficulty, b)
  {
    var prev := ExpectedPrevious(chain, b.index);
    if prev.None? {
      return Err(MissingPreviousBlock);
    }
    var header := CheckHeader(b, prev.value, difficulty, difficulty % TWO32);
    if !header {
      return Ok(false);
    }
    var ok, counts, feeC, feeI := CountSenders(b.transactions[1..]);
    if !ok {
      return Ok(false);
    }
    var expected := StartNonces(accts, counts);
    StartsFromCounts(expected, counts, accts, b.transactions);
    ok := CheckInPlace(accts, b.transactions, expected);
    if !ok {
      InPlaceUnlessStale(accts, b.transactions);
      return Ok(false);
    }
    if feeC >= TWO64 || feeI >= TWO64 {
      return Err(FeeTotalOverflow);
    }
    if FeeChecksum(feeC, feeI) != b.feeChecksum {
      return Ok(false);
    }
    return Ok(feeC <= b.coinbaseConsumer && feeI <= b.coinbaseIndustrial);
  }

  /** Here too the `seen_nonce` set decides nothing. */
  lemma InPlaceUnlessStale(accts: Accounts, txs: seq<SignedTransaction>)
    requires !PassesUpTo(accts, txs, |txs|)
    ensures !InPlace(accts, txs)
  {
    if forall i | 0 <= i < |txs| :: NonceInPlace(accts, txs, i) {
      forall j | 0 <= j < |txs|
        ensures PairFresh(txs, j)
      {
        InPlaceIsFresh(accts, txs, j);
      }
    }
  }
}
