# The Block: a verified model of the two-token ledger

The Block is a proof-of-work ledger with two tokens, consumer and industrial. A node (`Blockchain` in `src/lib.rs`)
keeps accounts, a mempool keyed by `(sender, nonce)` and a chain of blocks. Submitting a transaction *reserves*
`amount + fee` of each token on the sender's account; dropping it releases the reservation; mining settles the whole
mempool in one block and pays the miner a decaying reward plus the fees. Any node can check a block against its own
accounts, check a whole chain on its own, or import a longer chain by replaying it from nothing.

This project models that node and proves what its documents say it is for:

* **Reservations are exact.** In every state of every run that no exhausted nonce search interrupts, whatever is
  submitted or dropped and whatever overflows, an account's pending totals are the exact cost of its mempool entries and
  never exceed its balance; the coinbase address's are the cost of everything ever mined from it as well. Where every
  credit fits, no `saturating_sub` of submission, drop or settlement clamps.
* **Supply is conserved.** Where every credit fits, balances are seeds plus emission, to the unit, if and only if no mined
  transaction paid out more than it took: from the coinbase address, or by a sum that wraps.
* **Nonces are not reused** by any sender but the coinbase address, and with tail drops every address's run 1, 2, 3, …
  without a gap.
* **Miner and validators agree exactly.** A mined block or chain is accepted if and only if no block was mined over a
  gap in some sender's pending nonces.
* **Mining and importing round-trip exactly.** Where every credit fits, a run's chain imports into any shorter node of
  the same difficulty if and only if that difficulty fits 32 bits, no block was mined over a gap, and every mined fee comes from an address the chain
  had credited before. The import then rebuilds the same chain and height; each balance short by exactly the smaller of
  the address's seed and the least any of its debits left it with; and exactly the nonces of senders that the chain
  had credited before their last transaction. Without seeds every balance is rebuilt.
* **A tip hash commits to its history**, through injective payload, id and block pre-images.
* **Order does not matter** between senders, and dropping in reverse undoes submitting.

## Modules

| module | content |
|---|---|
| `Machine`, `Encoding`, `Crypto` | 64-bit words, byte layouts with their decoders, hex, the two foreign primitives |
| `Fee`, `Transaction` | the fee split; payloads, ids, signed messages |
| `ProofOfWork`, `HashLayout` | the target test; the block hash pre-image |
| `Order`, `MapSum` | block order of transactions; sums over maps |
| `Ledger`, `Settlement`, `Reservation` | states and operations; exact settlement; the reservation invariant |
| `RewardDecay`, `Runs`, `NonceHistory`, `Admission` | rewards; whole runs and emission; nonces along a chain; what is admitted |
| `Validation`, `Agreement` | the two validators; what they say of mined blocks and of each other |
| `Layout`, `Target`, `Reference`, `Transition` | the same operations from outside: bytes by offset, hashes as numbers, validity by bytes, numbers and nonce lists, balances by payload field |
| `Replay`, `RoundTrip`, `ImportedSupply` | import by replay; mining and importing; emission and supply after an import |
| `TipHash`, `Locality` | commitment to history; order independence |
| `Node` | `Blockchain` as a class updated in place, each method proved against `Ledger`, `Validation` and `Replay` |

## Conventions

* A `u64` is an integer below 2^64. Plain `+` and `-` wrap around (`Add64`, `Sub64`), as in the release builds the
  project documents; `saturating_sub` and `checked_add` are written out; `u128` accumulators are unbounded.
* A `String` or `Vec<u8>` is its byte sequence, shorter than 2^64. `str` comparison is byte-lexicographic.
* BLAKE3 and Ed25519 are uninterpreted constants. No hash is assumed injective: results that need it assume that the
  finitely many inputs they are about (`CollisionFree`) do not collide.
* A run (`Runs.Run`) is any interleaving of add, submit, drop and mine calls, accepted or rejected, from an empty node.
  Emission and account addresses are bounded and kept in all of them. Results about nonces, reservations and
  validators are about `Runs.Uninterrupted` runs: fewer than 2^64 calls, and no nonce search exhausts its 2^64 nonces.
  Results about balances are about `Runs.Admissible` runs: in addition every credit of a mined block fits the account it
  goes to. No overflow guard is assumed there; `Runs.FundedRunsAreAdmissible` and `Runs.PlainRunsAreFunded` say from
  which seeds on this holds by itself.
* The coinbase address, 34 ASCII zeros, is an ordinary address to `submit_transaction`, but settlement skips its debit
  (src/lib.rs:730). It is not excluded: per-sender results that fail there say `a != COINBASE`, and sums carry an
  `Unbacked` term.
* *Tail drops* are runs in which only a sender's highest pending nonce is dropped. Results that need this say so; most
  of them are stated exactly instead, through `Agreement.GapFree`.
* `MinerOverflow` and `MinerBalanceOverflow` stand for the panics of the `expect` calls on a miner's balance; a run may
  go on after one, from the state it leaves.

## Where code and documents differ

The model follows the code.

* `analysis.txt` gives the reward as one floor of the closed form; the code floors at every block. `ClosedFormBracket` says
  how close the two stay, `ClosedFormAgreesIff` where they agree once the code pays nothing.
* CONSENSUS.md's overflow guard is not checked at admission (`GuardIsUnchecked`), and without it a block can create 2^64
  units (`WrappedSumMints`), against its supply neutrality.
* `docs/ledger_invariants.md` has a reorg roll reservations back; no operation does that.
* An exhausted nonce search has already cleared the mempool and strands every reservation (`MineKeepsIff`).
* `is_valid_chain_rust` gets the difficulty cut to 32 bits (`AgreementIsExact`) and does not check block indices
  (`IndexIsUnchecked`).
* An import counts whole coinbases as emission, fees included (`ImportedEmission`), and can forget a nonce, after which a
  mined transaction that cost nothing is admitted again (`AdmittedAgainAfterImport`).

## Model

| member | source | states |
|---|---|---|
| `RoundTrip.MineImportRoundTrip` | src/lib.rs:917-1048 | For every run whose credits fit, any seeds, and every shorter node of equal difficulty: the import succeeds iff the difficulty fits 32 bits, no block was mined over a nonce gap and every mined fee comes from an already credited address; which error otherwise; on success the chain, height, reward schedule, shortfall of every balance and fate of every nonce |
| `RoundTrip.BalancesAgreeIff` | src/lib.rs:955-987 | A balance is rebuilt iff the address was seeded with nothing or some debit emptied it |
| `RoundTrip.NoncesAgreeIff` | src/lib.rs:955-967 | A nonce is rebuilt iff the address has no mined transaction or had been credited by the chain before its last one |
| `RoundTrip.ZeroSeedRoundTrip` | src/lib.rs:917-1048 | Without seeds and within the overflow guard: the fee condition is that no coinbase-address transaction names one, and every balance is rebuilt |
| `RoundTrip.TailDropRunsImport` | src/lib.rs:917-1048 | Runs with tail drops meet the gap condition, so their chains import |
| `RoundTrip.RewardsAgree` | src/lib.rs:1033-1040 | If every `mine_block` returned a block, the block rewards are the miner's too |
| `RoundTrip.AdmittedAgainAfterImport` | src/lib.rs:925-931 | After an import a mined zero-cost transaction of a never credited sender is admitted again |
| `RoundTrip.ImportAnswers` | src/lib.rs:917-924 | For every node and chain: refused as not longer iff it is not longer, as invalid iff longer and not valid, both with the node untouched; otherwise a success leaves exactly the longer chain, or a checksum or a miner overflow fails it |
| `RoundTrip.FailedImportLeaves` | src/lib.rs:925-1048 | A failure in replay leaves the blocks before the failing one, replayed, and nothing of the old chain; of the failing one every transaction, and of its miner's pay only a consumer part that fits, none on a wrong checksum |
| `Replay.ReplayRun` | src/lib.rs:933-1045 | The replay alone: on any cleared node a run's chain replays iff its fees are counted, and then rebuilds all that |
| `Replay.ReplayShortfall` | src/lib.rs:941-988 | Replaying an exactly settled list, the shortfall of a balance is lowered to what each debit leaves and moved by nothing else |
| `Replay.ReplayNonce` | src/lib.rs:955-967 | Replay keeps the nonce of a sender it knows at its last transaction and no other |
| `Replay.ReplayFeesCounted` | src/lib.rs:955-970 | The fees replay counts are all fees less those of the coinbase address and of senders not yet credited |
| `Replay.ReplayMinedBlock` | src/lib.rs:933-1045 | Replaying one mined block succeeds iff its fees are all counted, and fails on the checksum when not |
| `Replay.ValidChainReplayErrors` | src/lib.rs:933-1045 | After validation, replay can fail only on a fee checksum or a miner overflow; its other checks are redundant |
| `ImportedSupply.ImportedEmission` | src/lib.rs:1041-1042 | After an import, emission is the miner's plus every fee ever mined, on a 64-bit counter |
| `ImportedSupply.TotalAfterImport` | src/lib.rs:955-1024 | After importing any chain whatever, the supply is its coinbases less its fees plus what clamped and skipped debits created and wrapped credits destroyed |
| `Agreement.MinedChainValidIff` | src/lib.rs:1149-1259 | The chain validator accepts the chain of any uninterrupted run iff every block was mined from a mempool without gaps |
| `Agreement.AgreementIsExact` | src/lib.rs:921 | The same for the difficulty as the import passes it, truncated to 32 bits |
| `Agreement.MinedBlockValidIff` | src/lib.rs:1149-1259 | The same for one block mined from any state whose nonces are in sequence, whatever its balances |
| `Agreement.MinedBlockValidates` | src/lib.rs:807-915 | `validate_block` on the block just mined, against the accounts it left, answers whether the mempool had no gap |
| `Agreement.LastBlockValidates` | src/lib.rs:807-915 | The same at the end of any uninterrupted run |
| `Agreement.ValidateIffValid` | src/lib.rs:807-915 | At a 32-bit difficulty `validate_block` plus signatures is chain validity plus nonces that start where the accounts say |
| `Agreement.IndexIsUnchecked` | src/lib.rs:1150-1257 | A valid block sealed again under any other index is valid iff its new hash meets the target |
| `Reference.BlockIff` | src/lib.rs:1150-1257 | A chain block is accepted iff it is linked, opened by a payment from 34 zeros of what the header says, hashed over its own bytes below the bound, with fees in range, ids distinct, signatures verifying, each sender's k-th nonce its first plus k, and the digest of fees its coinbase covers |
| `Reference.ChainIff` | src/lib.rs:1149-1259 | A chain is accepted iff every block is and carries its predecessor's hash, the first one 64 zeros |
| `Reference.SameTransactionsValidIff` | src/lib.rs:1157-1256 | Of all blocks with a valid one's transactions exactly those are valid that differ at most in index and nonce, carry their own digest and are below the bound |
| `Reference.OtherChecksumRefused` | src/lib.rs:1238-1251 | A valid block's checksum decodes to the digest of its summed fees, consumer first, and no other passes however the block is sealed again |
| `Reference.ResignedValidIff` | src/lib.rs:1197-1215 | A valid block with other signatures is valid iff they verify |
| `Reference.ValidateAnswers` | src/lib.rs:807-915 | Every answer of `validate_block`: no predecessor iff past the tip, overflow iff countable with fees past 64 bits, yes iff countable and committed to fees it covers |
| `Reference.TipBlockValidates` | src/lib.rs:808-817 | At the end of any run the newest block, against the chain before it and the accounts after it, gets the answer that its mempool had no gap |
| `Target.ValidIffBelow` | src/lib.rs:1187-1190 | An otherwise valid block is valid iff its hash, as a number, is below 2^(256 - d) |
| `Target.ValidateNeedsBelow` | src/lib.rs:845-848 | `validate_block` refuses a linked block whose hash is not |
| `Agreement.DropKeepsGapFreeIff` | src/lib.rs:588-605 | A drop leaves no gap iff it takes the sender's lowest or highest pending nonce |
| `Agreement.TailDropsMineGapFree` | src/lib.rs:588-605 | With tail drops no block is ever mined over a gap |
| `Runs.RunReserves` | src/lib.rs:499-805 | Every state of every uninterrupted run satisfies the reservation invariant, overflows included |
| `Runs.RunInvariant` | src/lib.rs:499-805 | Where every credit fits it also conserves both tokens exactly, and the height is the chain's length |
| `Runs.ConservationOverRuns` | CONSENSUS.md:43-52 | Total balances are seeds plus emission iff no mined transaction paid out more than it took: fees cancel |
| `Runs.ReservationsInEveryState` | docs/ledger_invariants.md:34-48 | In every reachable state pending amounts are the cost of the account's mempool entries, its pending nonce counts them, and it can pay them; at the coinbase address, of everything mined from it too |
| `Runs.CoinbaseReserves` | src/lib.rs:730-744 | The coinbase address never gets back what its mined transactions reserved, and its nonce stays 0 |
| `Runs.DropsAreExact` | src/lib.rs:594-598 | No drop in an uninterrupted run clamps, from the coinbase address neither |
| `Runs.EmissionStaysBounded` | src/lib.rs:631-646 | In every run whatever, emission plus 20000 rewards never exceeds 1 200 000 000 (consumer) or 600 000 000 (industrial), the supply clamp never fires, and rewards decay once a call |
| `Runs.FundedRunsAreAdmissible` | src/lib.rs:656-789 | If seeds, the emission bound and unbacked payments fit 64 bits whenever a block is mined, every credit fits and every mine succeeds |
| `Runs.PlainRunsAreFunded` | CONSENSUS.md:54-61 | Within the overflow guard and without the coinbase address, seeds plus the emission bound are enough |
| `Runs.NoArithmeticFault` | src/lib.rs:656-789 | In such a run no mine has met a fault, and with room for one more block the next meets none at any settlement step |
| `Runs.AccountsStayNamed` | src/lib.rs:745-758 | Whatever is called, each account stays stored under its own address |
| `NonceHistory.MinedNoncesIncrease` | src/lib.rs:729-743 | With any drops, a sender's nonces strictly increase along the chain and never pass its account's: none is mined twice |
| `NonceHistory.CoinbaseNonceReused` | src/lib.rs:730-743 | The coinbase address's can be: after a drop below the top its last mined transaction is admitted again |
| `NonceHistory.MinedNoncesAreConsecutive` | src/lib.rs:568-570 | With tail drops every address's mined nonces are exactly 1, 2, …, the coinbase address's too |
| `NonceHistory.PendingNoncesAreNext` | docs/ledger_invariants.md:34-35 | With tail drops the mempool holds exactly the next nonces of a sender, one for each of its entries, listed in order |
| `Reservation.AddAccountKeeps` | src/lib.rs:499-516 | A new account keeps the reservation invariant, and its nonce half by itself |
| `Reservation.SubmitKeeps` | src/lib.rs:533-582 | So does an admitted transaction, also one whose sums wrap |
| `Reservation.DropKeeps` | src/lib.rs:588-605 | So does a drop of any pending transaction |
| `Reservation.MineKeeps` | src/lib.rs:729-764 | So does an appended block, whatever its credits wrap, and it leaves every reservation at zero |
| `Reservation.MineConserves` | src/lib.rs:729-793 | A block whose credits fit settles exactly at every point and changes each total by the minted reward and unbacked payments only |
| `Reservation.MineKeepsIff` | src/lib.rs:622-805 | A call of `mine_block` keeps the invariant iff the fees overflow, or a block is appended (also if the miner then overflows), or only the coinbase address had anything pending |
| `Reservation.ReserveIsExact` | src/lib.rs:554-577 | A reservation admitted by the wrapping checks never wraps and stays covered |
| `Reservation.ReleaseIsExact` | src/lib.rs:594-597 | A drop subtracts no more than is pending |
| `Reservation.MiningIsFaultFree` | src/lib.rs:656-804 | With headroom the only failure left to mining is an exhausted nonce search |
| `Settlement.SettleBacked` | src/lib.rs:729-764 | A list backed by reservations whose credits fit settles with no clamp and no wrap at any point, empties the reservations, and lowers the total by its fees |
| `Settlement.FitsWhenTotalsFit` | src/lib.rs:759-760 | Its credits fit if the totals and its unbacked payments do |
| `Settlement.SettlePend` | src/lib.rs:739-740 | Reserved amounts are released exactly whatever the balances, and never at the coinbase address |
| `Settlement.SettleNonce` | src/lib.rs:742 | After settlement an account's nonce is that of its last transaction in the list |
| `Settlement.UnbackedIff` | src/lib.rs:730-736 | Only a coinbase-address transaction that names something, or a sum that wraps, pays out more than it takes |
| `Admission.AdmitsExactly` | src/lib.rs:533-582 | From a solvent account, `submit_transaction` admits a guarded transaction iff it is new, in range, affordable on top of everything pending in unbounded arithmetic, next in nonce and signed |
| `Admission.RejectsExactly` | src/lib.rs:533-574 | Which of the seven rejections a guarded transaction from a solvent account gets, in order |
| `Admission.AdmissionReserves` | src/lib.rs:576-580 | What admission changes, in the payload's fields: both pending totals, the pending nonce and the mempool, and nothing else |
| `Admission.GuardIsExact` | CONSENSUS.md:54-61 | A transaction admitted from a solvent account is affordable iff neither `amount + fee` overflows |
| `Admission.GuardIsUnchecked` | src/lib.rs:554-566 | A sum that wraps to zero is admitted from an empty account |
| `Admission.WrappedSumMints` | src/lib.rs:735-759 | Mined, it creates 2^64 units beside the reward |
| `Locality.InterleavingDoesNotMatter` | tests/mempool_determinism.rs:13-63 | Two interleavings of the same calls, each sender's in its own order, reach the same state, are accepted alike, and mine the same block |
| `Locality.AcceptanceProjects` | src/lib.rs:499-605 | An interleaving is accepted throughout iff each sender's own calls are |
| `Locality.RunProjects` | src/lib.rs:499-605 | A sender's account and entries after any interleaving are what its own calls alone leave |
| `Locality.DropUndoesSubmit` | docs/ledger_invariants.md:81-82 | Dropping the transaction just admitted restores the state exactly |
| `Locality.DropsUndoSubmits` | src/lib.rs:533-605 | Dropping an admitted sequence, last first, restores the state exactly |
| `Locality.RoundTripAmongOthers` | src/lib.rs:533-605 | Other senders' calls in between change nothing of that |
| `TipHash.TipCommitsToHistory` | src/lib.rs:1149-1189 | Two valid chains of equal length and tip hash agree on every hashed field, payload and public key |
| `TipHash.ValidBlockWidths` | src/lib.rs:1149-1187 | Every block of a valid chain has the widths at which its pre-image is injective |
| `TipHash.SameHashSameBlock` | src/lib.rs:1277-1300 | Equal block hashes mean equal fields and transactions, up to signatures |
| `Validation.IsValidChain` | src/lib.rs:1149-1259 | The single-pass validator answers exactly the declarative predicate `ValidChain` |
| `Validation.CheckChainBlock` | src/lib.rs:1150-1257 | Its body answers exactly `ValidBlock`: header, consecutive nonces, fresh ids, signatures, summed fees |
| `Validation.CheckChainBody` | src/lib.rs:1191-1237 | Its loop over transactions, with running counters and two seen-sets |
| `Validation.CounterDecides` | src/lib.rs:1216-1221 | The running counter accepts a nonce iff it follows on from every earlier one of its sender |
| `Validation.SeenNonceIsImplied` | src/lib.rs:1223-1225 | Consecutive nonces are distinct, so the `seen_nonce` set decides nothing |
| `Validation.ValidateBlock` | src/lib.rs:807-915 | `validate_block` answers exactly the specification, its two errors included |
| `Validation.CountSenders` | src/lib.rs:862-874 | The first pass counts each sender's transactions and sums the decomposed fees |
| `Validation.StartNonces` | src/lib.rs:875-883 | Each counted sender starts at its account's nonce less its count, saturating |
| `Validation.CheckInPlace` | src/lib.rs:885-899 | The second pass accepts iff each sender's k-th transaction has nonce start + k, and ids and pairs are fresh |
| `Validation.InPlaceUnlessStale` | src/lib.rs:892-894 | Here too the `seen_nonce` set decides nothing |
| `Validation.CheckHeader` | src/lib.rs:1157-1190 | The header checks answer exactly `ValidHeader`; decoding the hash never panics |
| `Validation.CalculateHash` | src/lib.rs:1277-1300 | The streamed hash is the hash of the block's pre-image |
| `RewardDecay.DecayBracket` | src/lib.rs:631-638 | After n blocks the reward is at most the closed form, and within 20000 of it |
| `RewardDecay.DecayReachesZero` | src/lib.rs:47-50 | The reward strictly falls while positive, and is gone for good by height `R0` |
| `RewardDecay.ClosedFormBracket` | analysis.txt:19 | At every height the code pays at most the documented closed form, and less than 20000 less |
| `RewardDecay.ClosedFormAgreesIff` | analysis.txt:19 | From height `R0` on the code pays nothing and they agree iff the closed form is below one unit; at `R0` it still pays over 900 |
| `RewardDecay.MintedKeepsSupply` | src/lib.rs:641-646 | From emission within the maximum supply, the clamp keeps it there and never underflows |
| `RewardDecay.PotentialFalls` | src/lib.rs:631-646 | A block never raises emission plus 20000 times the reward |
| `ProofOfWork.CountLeadingZeroBits` | src/lib.rs:1262-1273 | The loop with its early exit counts the leading zero bits |
| `ProofOfWork.MeetsTargetIffBelow` | src/lib.rs:1262-1273 | At least d leading zero bits iff the big-endian value is below 2^(8 len - d) |
| `Ledger.FirstNonceIsLeast` | src/lib.rs:711-804 | The nonce search ends with the least nonce that meets the target, or none when none does |
| `Ledger.MinedBlock` | src/lib.rs:622-799 | A successful mine builds on the state, hashes its own fields, carries the least nonce, and leaves the stated successor |
| `Target.MinedIsBelow` | src/lib.rs:711-728 | A mined block's hash is below 2^(256 - d), and under every smaller nonce it is not |
| `Target.MineAnswers` | src/lib.rs:664-804 | Each failure of `mine_block` iff: fees and reward past 64 bits; no nonce below the bound; the miner's balance past 64 bits |
| `Transition.MineLeaves` | src/lib.rs:631-799 | The whole state after each failure, and the counters after a success |
| `Transition.MinedFields` | src/lib.rs:623-709 | The block built, field by field: index, link, difficulty, coinbase and its transaction, checksum, and the whole mempool by sender bytes and nonce |
| `Transition.BlockMovesBalances` | src/lib.rs:729-789 | A block whose credits fit moves each balance by what its transactions pay it less what they cost it, and the miner's by reward and fees too |
| `Transition.OneTransactionBlock` | CONSENSUS.md:28-41 | The documented state transition, token by token and field by field: sender, recipient, miner and everybody else |
| `Transition.EmissionInUnits` | src/lib.rs:45-50 | The emission bounds and the reward schedule of every run in units |
| `Transition.FirstReward` | src/lib.rs:47-50 | The first block pays 59 997 consumer and 29 998 industrial units |
| `Order.SortedListingIsUnique` | src/lib.rs:648-655 | The block's order does not depend on the order the map yields its entries in |
| `Fee.DecomposeIsTheSplit` | CONSENSUS.md:16-26 | The split pays out exactly the fee, in the tokens selected, and is the only one that does; both error cases |
| `Transaction.PayloadRoundTrip` | src/transaction.rs:119-122 | The decoder returns (payload, rest) iff the bytes are the payload's encoding followed by rest: prefix-free and canonical |
| `Transaction.IdPreimageInjective` | src/transaction.rs:108-116 | Two transactions share an id pre-image iff they share payload and public key |
| `Transaction.SigningMessageInjective` | src/transaction.rs:143-153 | A signed message determines its payload |
| `Transaction.ComputeId` | src/transaction.rs:108-116 | The streamed id is the hash of that pre-image |
| `Layout.PayloadLayout` | tests/test_interop.py:5-21 | The payload's bytes by offset: strings behind their lengths, consumer then industrial amount, fee, selector, nonce, memo, and the total length |
| `Layout.HashedAndSigned` | src/transaction.rs:108-153 | An id is the digest of `TX`, version 2, payload and key; a signature covers the domain tag and chain id 1 before the payload |
| `Layout.BlockLayout` | src/hashlayout.rs:18-31 | The header's bytes by offset, read as the block's own fields, then each transaction's id in order |
| `Layout.BlockHashDecodes` | src/hashlayout.rs:34-38 | A block hash decodes to the digest of those bytes |
| `Layout.ChecksumDecodes` | src/lib.rs:677-680 | A fee checksum decodes to the digest of the consumer total, then the industrial |
| `Layout.Le64Bytes` | src/consensus.rs:59-77 | Integers are little-endian: the i-th byte has weight 256^i |
| `Layout.ToHexDigits` | src/hashlayout.rs:34-38 | Hex is two lower-case digits a byte, high nibble first |
| `Layout.ConstantsAre` | src/consensus.rs:47-56 | The domain tag, the coinbase address and the zero hash as text |
| `Encoding.TakeU64Inverts` | src/consensus.rs:59-77 | Reading a fixed-width word inverts writing it, both ways |
| `Encoding.TakeBytesInverts` | src/consensus.rs:59-77 | Reading a length-prefixed string inverts writing it, both ways |
| `Encoding.HexRoundTrip` | src/lib.rs:63-66 | Decoding hex undoes encoding, so a block hash always decodes |
| `Crypto.FeePreimageInjective` | src/lib.rs:677-680 | The fee checksum's pre-image determines both totals |
| `HashLayout.PreimageInjective` | src/hashlayout.rs:18-31 | At fixed widths the block pre-image determines every field and the id list at any length |
| `HashLayout.PreimageNeedsWidths` | src/hashlayout.rs:18-31 | Without the widths it does not |
| `HashLayout.BlockEncoder.Encode` | src/hashlayout.rs:18-31 | Feeds the hasher exactly the pre-image |
| `HashLayout.BlockEncoder.Hash` | src/hashlayout.rs:34-38 | Returns the hex of the pre-image's hash |
| `Node.CollectPending` | src/lib.rs:648-649 | Lists the mempool without repetition, in any order |
| `Node.SortPending` | src/lib.rs:650-655 | A strictly sorted permutation of distinct keys |
| `Node.PendingInOrder` | src/lib.rs:648-655 | The result is the one sorted listing of the mempool |
| `Node.SumFees` | src/lib.rs:656-663 | The fee totals of the list, undecomposable fees counting nothing |
| `Node.SearchNonce` | src/lib.rs:711-804 | The loop terminates with the block sealed by the least nonce, or none |
| `Node.Blockchain.WithDifficulty` | src/lib.rs:429-433 | A node on an empty database starts in the fresh state |
| `Node.Blockchain.AddAccount` | src/lib.rs:499-516 | The whole new state is the ledger's step |
| `Node.Blockchain.SubmitTransaction` | src/lib.rs:533-582 | The whole new state and each rejection are the ledger's step |
| `Node.Blockchain.DropTransaction` | src/lib.rs:588-605 | The whole new state is the ledger's step |
| `Node.Blockchain.BuildCandidate` | src/lib.rs:623-709 | Decay, clamp, order, fees and coinbase, or the fee error |
| `Node.Blockchain.SettleInPlace` | src/lib.rs:729-764 | The in-place loop is the settlement fold |
| `Node.Blockchain.PayMiner` | src/lib.rs:766-789 | One credit to the miner, or which panic it ends in and with what credited |
| `Node.Blockchain.MineBlock` | src/lib.rs:622-805 | The answer, and the whole state it leaves on success and on each failure |
| `Node.Blockchain.ValidateBlock` | src/lib.rs:807-915 | The answer against the node's own chain, accounts and difficulty |
| `Node.Blockchain.ReplayInPlace` | src/lib.rs:939-988 | The in-place loop is the replay fold, with its fee counts and signature errors and the accounts it stops at |
| `Node.Blockchain.ImportBlock` | src/lib.rs:933-1045 | One turn of the import loop is the replay of one block, with the state each failure leaves |
| `Node.Blockchain.ImportChain` | src/lib.rs:917-1048 | The answer and the whole state, on success and on each failure: untouched by a chain not longer or not valid, part-way after a failing block |

## Left out

- `Node.SortPending`: models `sort_unstable_by` by insertion; by `Order.SortedListingIsUnique` no other algorithm could
  return anything else.
- Runs after an import: an import leaves the node's mempool while it replaces the accounts, so runs consist of add,
  submit, drop and mine calls on one node.
- Runs after an exhausted nonce search: that call is followed for the one step only (`Reservation.MineKeepsIff`).
- Setting difficulty, rewards, emission or nonces through the Python field setters during a run.
- Concurrent access to the mempool map: the methods take the node exclusively, so calls are atomic steps in any order.
- The bound by the maximum supply in CONSENSUS.md's overflow guard: results assume at most that sums fit 64 bits, which
  is weaker.
- `genesis_block`: it pushes a block without transactions, which both validators reject; chains here start empty.
- Opening, persisting and migrating databases, and the key-value store under them.
- BLAKE3 and Ed25519 themselves, key generation and signing; collisions and forgeries are not modelled.
- Error message texts, `get_account_balance`, `current_chain_length` and display helpers.
- Python bindings, demo, bootstrap scripts, the build-time genesis hash and the advisory database.
