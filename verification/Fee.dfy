/** The two-token fee split (src/fee/mod.rs). */
module Fee {
  import opened Machine

  const MAX_FEE: u64 := 0x7FFF_FFFF_FFFF_FFFF

  datatype FeeError = InvalidSelector | Overflow

  datatype Split = Split(ct: u64, it: u64)

  function Decompose(selector: byte, fee: u64): Result<Split, FeeError> {
    if fee > MAX_FEE then Err(Overflow)
    else if selector == 0 then Ok(Split(fee, 0))
    else if selector == 1 then Ok(Split(0, fee))
    else if selector == 2 then Ok(Split((fee + 1) / 2, fee / 2))
    else Err(InvalidSelector)
  }

  /** INV-FEE-01 at its root: an accepted split pays out exactly the fee, no component leaves the
      63-bit range, the selectors 0 and 1 are single-token, selector 2 favours the consumer token
      by at most one unit; and the split is the only one with these properties. */
  lemma DecomposeIsTheSplit(selector: byte, fee: u64, ct: u64, it: u64)
    ensures Decompose(selector, fee) == Ok(Split(ct, it)) <==>
            && fee <= MAX_FEE && selector <= 2
            && ct + it == fee
            && (selector == 0 ==> it == 0)
            && (selector == 1 ==> ct == 0)
            && (selector == 2 ==> it <= ct <= it + 1)
  {
  }
}
