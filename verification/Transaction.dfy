/** Transactions, their canonical bytes, ids and signatures (src/transaction.rs, src/consensus.rs). */
module Transaction {
  import opened Machine
  import opened Encoding
  import opened Crypto
  import opened Fee

  const CHAIN_ID: u64 := 1
  const TX_VERSION: byte := 2

  datatype RawTxPayload = RawTxPayload(
    from_: Bytes,
    to: Bytes,
    amountConsumer: u64,
    amountIndustrial: u64,
    fee: u64,
    feeSelector: byte,
    nonce: u64,
    memo: Bytes)

  datatype SignedTransaction = SignedTransaction(
    payload: RawTxPayload,
    publicKey: Bytes,
    signature: Bytes)

  // ---- the two tokens ----

  datatype Token = Consumer | Industrial

  function Amount(tx: SignedTransaction, t: Token): u64 {
    if t.Consumer? then tx.payload.amountConsumer else tx.payload.amountIndustrial
  }

  /** `decompose(selector, fee).unwrap_or((0, 0))`, one token of it. */
  function FeeOf(tx: SignedTransaction, t: Token): u64 {
    match Decompose(tx.payload.feeSelector, tx.payload.fee)
    case Ok(split) => if t.Consumer? then split.ct else split.it
    case Err(_) => 0
  }

  /** The consumer part of a fee under each selector; the rest is industrial. */
  ghost function ConsumerFee(p: RawTxPayload): nat {
    if p.feeSelector == 0 then p.fee else if p.feeSelector == 1 then 0 else (p.fee + 1) / 2
  }

  lemma FeeInTokens(tx: SignedTransaction)
    requires Decompose(tx.payload.feeSelector, tx.payload.fee).Ok?
    ensures FeeOf(tx, Consumer) == ConsumerFee(tx.payload)
    ensures FeeOf(tx, Industrial) == tx.payload.fee - ConsumerFee(tx.payload)
  {
  }

  /** `amount + fee` as the ledger computes it: unchecked. */
  function Cost(tx: SignedTransaction, t: Token): u64 {
    Add64(Amount(tx, t), FeeOf(tx, t))
  }

  /** The part of CONSENSUS.md's overflow guard that matters here, and that the code does not check: the sum is a
      machine word (the document bounds it by the maximum supply). */
  predicate Guarded(tx: SignedTransaction) {
    && Amount(tx, Consumer) + FeeOf(tx, Consumer) < TWO64
    && Amount(tx, Industrial) + FeeOf(tx, Industrial) < TWO64
  }

  // ---- canonical payload ----

  /** `bincode` with fixed-width little-endian integers, fields in declaration order. */
  function CanonicalPayloadBytes(p: RawTxPayload): seq<byte> {
    EncodeBytes(p.from_) + EncodeBytes(p.to)
    + Le64(p.amountConsumer) + Le64(p.amountIndustrial) + Le64(p.fee)
    + [p.feeSelector] + Le64(p.nonce) + EncodeBytes(p.memo)
  }

  function TakeByte(bs: seq<byte>): Option<(byte, seq<byte>)> {
    if bs == [] then None else Some((bs[0], bs[1..]))
  }

  /** The reader of that layout: the payload and what follows it. */
  function DecodePayload(bs: seq<byte>): Option<(RawTxPayload, seq<byte>)> {
    var (from_, b1) :- TakeBytes(bs);
    var (to, b2) :- TakeBytes(b1);
    var (ac, b3) :- TakeU64(b2);
    var (ai, b4) :- TakeU64(b3);
    var (fee, b5) :- TakeU64(b4);
    var (sel, b6) :- TakeByte(b5);
    var (nonce, b7) :- TakeU64(b6);
    var (memo, rest) :- TakeBytes(b7);
    Some((RawTxPayload(from_, to, ac, ai, fee, sel, nonce, memo), rest))
  }

  /** The same bytes bracketed to the right, as the reader consumes them. */
  ghost function Stages(p: RawTxPayload, rest: seq<byte>): (s: seq<seq<byte>>)
    ensures |s| == 8
  {
    var s7 := EncodeBytes(p.memo) + rest;
    var s6 := Le64(p.nonce) + s7;
    var s5 := [p.feeSelector] + s6;
    var s4 := Le64(p.fee) + s5;
    var s3 := Le64(p.amountIndustrial) + s4;
    var s2 := Le64(p.amountConsumer) + s3;
    var s1 := EncodeBytes(p.to) + s2;
    [EncodeBytes(p.from_) + s1, s1, s2, s3, s4, s5, s6, s7]
  }

  lemma StagesAreTheEncoding(p: RawTxPayload, rest: seq<byte>)
    ensures Stages(p, rest)[0] == CanonicalPayloadBytes(p) + rest
  {
  }

  /** Reading what was written, whatever follows, gives it back, and nothing else reads that way: the
      layout is prefix-free and has one encoding per payload. */
  lemma PayloadRoundTrip(p: RawTxPayload, bs: seq<byte>, rest: seq<byte>)
    ensures DecodePayload(bs) == Some((p, rest)) <==> bs == CanonicalPayloadBytes(p) + rest
  {
    StagesAreTheEncoding(p, rest);
    if bs == CanonicalPayloadBytes(p) + rest {
      DecodesStages(p, rest);
    }
    if DecodePayload(bs) == Some((p, rest)) {
      DecodedIsStages(p, bs, rest);
    }
  }

  lemma DecodesStages(p: RawTxPayload, rest: seq<byte>)
    ensures DecodePayload(Stages(p, rest)[0]) == Some((p, rest))
  {
    var s := Stages(p, rest);
    TakeBytesInverts(p.from_, s[0], s[1]);
    TakeBytesInverts(p.to, s[1], s[2]);
    TakeU64Inverts(p.amountConsumer, s[2], s[3]);
    TakeU64Inverts(p.amountIndustrial, s[3], s[4]);
    TakeU64Inverts(p.fee, s[4], s[5]);
    assert TakeByte(s[5]) == Some((p.feeSelector, s[6]));
    TakeU64Inverts(p.nonce, s[6], s[7]);
    TakeBytesInverts(p.memo, s[7], rest);
  }

  lemma DecodedIsStages(p: RawTxPayload, bs: seq<byte>, rest: seq<byte>)
    requires DecodePayload(bs) == Some((p, rest))
    ensures bs == Stages(p, rest)[0]
  {
    var b1 := TakeBytes(bs).value.1;
    var b2 := TakeBytes(b1).value.1;
    var b3 := TakeU64(b2).value.1;
    var b4 := TakeU64(b3).value.1;
    var b5 := TakeU64(b4).value.1;
    var b6 := TakeByte(b5).value.1;
    var b7 := TakeU64(b6).value.1;
    TakeBytesInverts(p.memo, b7, rest);
    TakeU64Inverts(p.nonce, b6, b7);
    assert b5 == [p.feeSelector] + b6;
    TakeU64Inverts(p.fee, b4, b5);
    TakeU64Inverts(p.amountIndustrial, b3, b4);
    TakeU64Inverts(p.amountConsumer, b2, b3);
    TakeBytesInverts(p.to, b1, b2);
    TakeBytesInverts(p.from_, bs, b1);
  }

  // ---- transaction id ----

  /** What `SignedTransaction::id` hashes: no separator between payload and key, and no signature. */
  function IdPreimage(tx: SignedTransaction): seq<byte> {
    [84, 88] + [TX_VERSION] + CanonicalPayloadBytes(tx.payload) + tx.publicKey
  }

  function TxId(tx: SignedTransaction): Digest {
    Blake3(IdPreimage(tx))
  }

  lemma IdPreimageBody(tx: SignedTransaction)
    ensures |IdPreimage(tx)| >= 3
    ensures IdPreimage(tx)[3..] == CanonicalPayloadBytes(tx.payload) + tx.publicKey
  {
  }

  /** The id pre-image determines the payload and the public key, and leaves the signature open. */
  lemma IdPreimageInjective(tx: SignedTransaction, tx': SignedTransaction)
    ensures IdPreimage(tx) == IdPreimage(tx') <==> tx.payload == tx'.payload && tx.publicKey == tx'.publicKey
  {
    if IdPreimage(tx) == IdPreimage(tx') {
      var body := IdPreimage(tx)[3..];
      IdPreimageBody(tx);
      IdPreimageBody(tx');
      PayloadRoundTrip(tx.payload, body, tx.publicKey);
      PayloadRoundTrip(tx'.payload, body, tx'.publicKey);
    }
  }

  method ComputeId(tx: SignedTransaction) returns (id: Digest)
    ensures id == TxId(tx)
  {
    var hasher := new Hasher();
    hasher.Update([84, 88]);
    hasher.Update([TX_VERSION]);
    hasher.Update(CanonicalPayloadBytes(tx.payload));
    hasher.Update(tx.publicKey);
    assert hasher.fed == IdPreimage(tx);
    id := hasher.Finalize();
  }

  // ---- signatures ----

  /** `THE_BLOCKv2|` and the chain id, 16 bytes. */
  const DOMAIN_TAG: seq<byte> :=
    [84, 72, 69, 95, 66, 76, 79, 67, 75, 118, 50, 124] + Le(4, CHAIN_ID)

  function SigningMessage(p: RawTxPayload): seq<byte> {
    DOMAIN_TAG + CanonicalPayloadBytes(p)
  }

  predicate VerifySignedTx(tx: SignedTransaction) {
    && |tx.publicKey| == 32
    && |tx.signature| == 64
    && Ed25519KeyOk(tx.publicKey)
    && Ed25519Verify(tx.publicKey, SigningMessage(tx.payload), tx.signature)
  }

  /** A signed message determines its payload: no signature can be read as covering another payload. */
  lemma SigningMessageInjective(p: RawTxPayload, p': RawTxPayload)
    requires SigningMessage(p) == SigningMessage(p')
    ensures p == p'
  {
    var n := |DOMAIN_TAG|;
    assert CanonicalPayloadBytes(p) == SigningMessage(p)[n..] == CanonicalPayloadBytes(p');
    PayloadRoundTrip(p, CanonicalPayloadBytes(p), []);
    PayloadRoundTrip(p', CanonicalPayloadBytes(p'), []);
    assert CanonicalPayloadBytes(p) + [] == CanonicalPayloadBytes(p);
    assert CanonicalPayloadBytes(p') + [] == CanonicalPayloadBytes(p');
  }
}
