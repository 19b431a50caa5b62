/** Reward decay by iterated floors, and the bound it puts on emission (src/lib.rs:45-50, 631-646). */
module RewardDecay {
  import opened Machine
  import opened Transaction
  import opened Ledger

  /** The reward after `n` blocks. */
  function Decayed(reward: u64, n: nat): u64 {
    if n == 0 then reward else Decay(Decayed(reward, n - 1))
  }

  lemma DecayStep(reward: u64)
    ensures DECAY_DENOMINATOR * Decay(reward) <= DECAY_NUMERATOR * reward
            < DECAY_DENOMINATOR * Decay(reward) + DECAY_DENOMINATOR
    ensures reward > 0 ==> Decay(reward) < reward
    ensures reward == 0 ==> Decay(reward) == 0
    ensures 20_000 * reward >= 20_001 * Decay(reward)
  {
  }

  ghost function Pow(b: nat, n: nat): nat {
    if n == 0 then 1 else b * Pow(b, n - 1)
  }

  lemma Scale(a: nat, b: nat, w: nat)
    requires a <= b
    ensures a * w <= b * w
  {
  }

  /** The iterated floors stay within 20 000 units below the closed form `R0 * 0.99995^n`, at every height. */
  lemma {:induction false} DecayBracket(reward: u64, n: nat)
    ensures Decayed(reward, n) * Pow(100_000, n) <= reward * Pow(99_995, n)
            < (Decayed(reward, n) + 20_000) * Pow(100_000, n)
  {
    if n > 0 {
      DecayBracket(reward, n - 1);
      DecayStep(Decayed(reward, n - 1));
      BracketStep(Decayed(reward, n - 1), Decayed(reward, n), Pow(100_000, n - 1), reward * Pow(99_995, n - 1));
      PowStep(reward, 99_995, n);
    }
  }

  lemma PowStep(x: nat, b: nat, n: nat)
    requires n > 0
    ensures x * Pow(b, n) == b * (x * Pow(b, n - 1))
  {
  }

  lemma BracketStep(a: nat, b: nat, p: nat, q: nat)
    requires a * p <= q < (a + 20_000) * p
    requires 100_000 * b <= 99_995 * a < 100_000 * b + 100_000
    ensures b * (100_000 * p) <= 99_995 * q < (b + 20_000) * (100_000 * p)
  {
    Scale(100_000 * b, 99_995 * a, p);
    assert 99_995 * a * p == 99_995 * (a * p);
    assert b * (100_000 * p) == 100_000 * b * p;
    assert 99_995 * q < 99_995 * ((a + 20_000) * p);
    assert 99_995 * ((a + 20_000) * p) == (99_995 * (a + 20_000)) * p;
    Scale(99_995 * (a + 20_000), 100_000 * (b + 20_000), p);
    assert (b + 20_000) * (100_000 * p) == 100_000 * (b + 20_000) * p;
  }

  /** The reward strictly falls while positive, so it is gone by height `R0` and stays gone. */
  lemma {:induction false} DecayReachesZero(reward: u64, n: nat)
    ensures Decayed(reward, n) + Min(n, reward) <= reward
    ensures Decayed(reward, n + 1) < Decayed(reward, n) || Decayed(reward, n + 1) == Decayed(reward, n) == 0
    ensures n >= reward ==> Decayed(reward, n) == 0
  {
    DecayStep(Decayed(reward, n));
    if n > 0 {
      DecayReachesZero(reward, n - 1);
      DecayStep(Decayed(reward, n - 1));
    }
  }

  // ---- the closed form is not what the code computes ----

  lemma {:induction false} Bernoulli(n: nat)
    requires n <= 20_000
    ensures Pow(99_995, n) * 20_000 >= Pow(100_000, n) * (20_000 - n)
  {
    if n > 0 {
      var p, q := Pow(99_995, n - 1), Pow(100_000, n - 1);
      Bernoulli(n - 1);
      Scale(100_000 * (20_000 - n), 99_995 * (20_001 - n), q);
      assert 99_995 * (20_001 - n) * q == 99_995 * (q * (20_001 - n));
      assert 100_000 * (20_000 - n) * q == (100_000 * q) * (20_000 - n);
    }
  }

  lemma {:induction false} PowSum(b: nat, m: nat, n: nat)
    ensures Pow(b, m + n) == Pow(b, m) * Pow(b, n)
  {
    if m > 0 {
      PowSum(b, m - 1, n);
      assert b * (Pow(b, m - 1) * Pow(b, n)) == (b * Pow(b, m - 1)) * Pow(b, n);
    }
  }

  /** If `block` steps at most halve the closed form, `k` times as many cost it at most a factor `2^k`. */
  lemma {:induction false} Halvings(k: nat, block: nat, n: nat)
    requires 2 * Pow(99_995, block) >= Pow(100_000, block) && n == block * k
    ensures Pow(99_995, n) * Pow(2, k) >= Pow(100_000, n)
  {
    if k > 0 {
      var rest := n - block;
      assert rest == block * (k - 1);
      Halvings(k - 1, block, rest);
      PowSum(99_995, block, rest);
      PowSum(100_000, block, rest);
      HalvingStep(Pow(99_995, block), Pow(100_000, block), Pow(99_995, rest), Pow(100_000, rest), Pow(2, k - 1));
    }
  }

  lemma HalvingStep(x: nat, y: nat, p: nat, q: nat, w: nat)
    requires 2 * x >= y && p * w >= q
    ensures (x * p) * (2 * w) >= y * q
  {
  }

  lemma {:induction false} PowPositive(b: nat, n: nat)
    requires b > 0
    ensures Pow(b, n) > 0
  {
    if n > 0 {
      PowPositive(b, n - 1);
    }
  }

  /** The documented `floor(R0 * 0.99995^n)`. */
  ghost function ClosedForm(reward: u64, n: nat): nat {
    PowPositive(100_000, n);
    reward * Pow(99_995, n) / Pow(100_000, n)
  }

  lemma QuotientBounds(x: nat, y: nat)
    requires y > 0
    ensures x / y == 0 <==> x < y
    ensures forall q: nat :: q * y <= x ==> q <= x / y
    ensures forall q: nat :: x < q * y ==> x / y < q
  {
    assert (x / y) * y <= x < (x / y) * y + y;
    forall q: nat | q * y <= x
      ensures q <= x / y
    {
      if q > x / y {
        Scale(x / y + 1, q, y);
      }
    }
    forall q: nat | x < q * y
      ensures x / y < q
    {
      if q <= x / y {
        Scale(q, x / y, y);
      }
    }
  }

  /** At every height the code pays at most the closed form, and less than 20 000 units less. */
  lemma ClosedFormBracket(reward: u64, n: nat)
    ensures Decayed(reward, n) <= ClosedForm(reward, n) < Decayed(reward, n) + 20_000
  {
    PowPositive(100_000, n);
    DecayBracket(reward, n);
    QuotientBounds(reward * Pow(99_995, n), Pow(100_000, n));
  }

  /** From height `R0` on the code pays nothing, so the two agree exactly where the closed form has fallen below
      one unit; and at `R0` itself it has not: it still pays over 900 units, for either token. */
  lemma ClosedFormAgreesIff(t: Token, n: nat)
    requires n >= InitialReward(t)
    ensures Decayed(InitialReward(t), n) == 0
    ensures ClosedForm(InitialReward(t), n) == Decayed(InitialReward(t), n)
            <==> InitialReward(t) * Pow(99_995, n) < Pow(100_000, n)
    ensures n == InitialReward(t) ==> ClosedForm(InitialReward(t), n) >= 900
  {
    DecayReachesZero(InitialReward(t), n);
    PowPositive(100_000, n);
    QuotientBounds(InitialReward(t) * Pow(99_995, n), Pow(100_000, n));
    if n == InitialReward(t) {
      ClosedFormAtReward(t, n);
    }
  }

  lemma ClosedFormAtReward(t: Token, n: nat)
    requires n == InitialReward(t)
    ensures InitialReward(t) * Pow(99_995, n) >= 900 * Pow(100_000, n)
  {
    hide Pow;
    var k, block := if t.Consumer? then 6 else 3, 10_000;
    Bernoulli(block);
    Halvings(k, block, n);
    SmallPowers(k);
    var p := Pow(99_995, n);
    Scale(Pow(2, k) * 900, n, p);
    assert Pow(2, k) * 900 * p == 900 * (p * Pow(2, k));
  }

  lemma SmallPowers(k: nat)
    requires k == 3 || k == 6
    ensures Pow(2, k) == if k == 3 then 8 else 64
  {
  }

  // ---- emission ----

  /** From emission within the maximum supply, mining keeps it there, and `MAX_SUPPLY - emission` never
      underflows. */
  lemma MintedKeepsSupply(s: State, t: Token)
    requires Emission(s, t) <= MAX_SUPPLY
    ensures Emission(s, t) + Minted(s, t) <= MAX_SUPPLY
    ensures Minted(s, t) == if Emission(s, t) + Decay(Reward(s, t)) <= MAX_SUPPLY then Decay(Reward(s, t))
                            else MAX_SUPPLY - Emission(s, t)
  {
  }

  /** What emission can ever reach: 20 000 initial rewards, 1 200 000 000 and 600 000 000. */
  function EmissionBound(t: Token): u64 {
    20_000 * InitialReward(t)
  }

  /** Emission plus 20 000 times the current reward: mining never raises it. */
  ghost predicate WithinPotential(s: State, t: Token) {
    Emission(s, t) + 20_000 * Reward(s, t) <= EmissionBound(t)
  }

  lemma PotentialFalls(s: State, t: Token)
    requires WithinPotential(s, t)
    ensures Minted(s, t) == Decay(Reward(s, t))
    ensures Emission(s, t) + Minted(s, t) + 20_000 * Decay(Reward(s, t)) <= EmissionBound(t)
  {
  }
}
