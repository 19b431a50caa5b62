/** The proof-of-work test (src/lib.rs, `leading_zero_bits`). */
module ProofOfWork {
  import opened Machine

  /** `u8::leading_zeros`. */
  function ByteLeadingZeros(b: byte): (n: nat)
    ensures n <= 8
  {
    if b >= 128 then 0 else if b >= 64 then 1 else if b >= 32 then 2 else if b >= 16 then 3
    else if b >= 8 then 4 else if b >= 4 then 5 else if b >= 2 then 6 else if b == 1 then 7 else 8
  }

  function LeadingZeroBits(h: seq<byte>): nat {
    if h == [] then 0
    else if h[0] == 0 then 8 + LeadingZeroBits(h[1..])
    else ByteLeadingZeros(h[0])
  }

  method CountLeadingZeroBits(hash: seq<byte>) returns (count: nat)
    ensures count == LeadingZeroBits(hash)
  {
    count := 0;
    var i := 0;
    while i < |hash|
      invariant 0 <= i <= |hash|
      invariant count + LeadingZeroBits(hash[i..]) == LeadingZeroBits(hash)
    {
      var b := hash[i];
      assert hash[i..][1..] == hash[i + 1..];
      if b == 0 {
        count := count + 8;
      } else {
        count := count + ByteLeadingZeros(b);
        return;
      }
      i := i + 1;
    }
  }

  // ---- what the test means ----

  ghost function Pow2(n: nat): (p: nat)
    ensures p >= 1
  {
    if n == 0 then 1 else 2 * Pow2(n - 1)
  }

  lemma {:induction false} Pow2Sum(a: nat, b: nat)
    ensures Pow2(a + b) == Pow2(a) * Pow2(b)
  {
    if a > 0 {
      Pow2Sum(a - 1, b);
    }
  }

  lemma {:induction false} Pow2Monotone(a: nat, b: nat)
    requires a <= b
    ensures Pow2(a) <= Pow2(b)
  {
    if a < b {
      Pow2Monotone(a, b - 1);
    }
  }

  /** The hash read as one big-endian number. */
  ghost function BigEndian(h: seq<byte>): nat {
    if h == [] then 0 else h[0] * Pow2(8 * (|h| - 1)) + BigEndian(h[1..])
  }

  lemma ScaleMonotone(a: nat, b: nat, w: nat)
    requires a <= b
    ensures a * w <= b * w
  {
  }

  lemma {:induction false} BigEndianBound(h: seq<byte>)
    ensures BigEndian(h) < Pow2(8 * |h|)
  {
    if h != [] {
      BigEndianBound(h[1..]);
      LeadByteBracket(h, 0, 256);
      Pow2Sum(8, 8 * |h[1..]|);
      assert Pow2(8) == 256 by {
        assert Pow2(4) == 16;
      }
    }
  }

  /** The number lies between its leading byte's multiples of the weight of the rest. */
  lemma LeadByteBracket(h: seq<byte>, lo: nat, hi: nat)
    requires h != [] && lo <= h[0] < hi
    requires BigEndian(h[1..]) < Pow2(8 * |h[1..]|)
    ensures lo * Pow2(8 * |h[1..]|) <= BigEndian(h) < hi * Pow2(8 * |h[1..]|)
  {
    var b: int := h[0];
    assert |h| - 1 == |h[1..]|;
    Bracket(b, Pow2(8 * |h[1..]|), BigEndian(h[1..]), lo, hi);
  }

  lemma Bracket(b: nat, w: nat, tail: nat, lo: nat, hi: nat)
    requires lo <= b < hi && tail < w
    ensures lo * w <= b * w + tail < hi * w
  {
    ScaleMonotone(lo, b, w);
    ScaleMonotone(b + 1, hi, w);
    assert (b + 1) * w == b * w + w;
  }

  lemma ByteBracket(b: byte)
    requires b > 0
    ensures var z := ByteLeadingZeros(b); z <= 7 && Pow2(7 - z) <= b < Pow2(8 - z)
  {
    assert Pow2(3) == 8;
    assert Pow2(6) == 8 * Pow2(3);
    assert Pow2(8) == 4 * Pow2(6);
  }

  /** A hash has at least `d` leading zero bits exactly when, as a number, it is below `2^(8|h| - d)`. */
  lemma {:induction false} MeetsTargetIffBelow(h: seq<byte>, d: nat)
    requires d <= 8 * |h|
    ensures LeadingZeroBits(h) >= d <==> BigEndian(h) < Pow2(8 * |h| - d)
  {
    if h != [] {
      BigEndianBound(h[1..]);
      if h[0] == 0 {
        if d <= 8 {
          Pow2Monotone(8 * |h[1..]|, 8 * |h| - d);
        } else {
          MeetsTargetIffBelow(h[1..], d - 8);
        }
      } else {
        MeetsTargetNonzeroLead(h, d);
      }
    }
  }

  lemma MeetsTargetNonzeroLead(h: seq<byte>, d: nat)
    requires h != [] && h[0] > 0 && d <= 8 * |h|
    requires BigEndian(h[1..]) < Pow2(8 * |h[1..]|)
    ensures ByteLeadingZeros(h[0]) >= d <==> BigEndian(h) < Pow2(8 * |h| - d)
  {
    var z := ByteLeadingZeros(h[0]);
    var n := 8 * |h[1..]|;
    ByteBracket(h[0]);
    LeadByteBracket(h, Pow2(7 - z), Pow2(8 - z));
    Pow2Sum(7 - z, n);
    Pow2Sum(8 - z, n);
    if d <= z {
      Pow2Monotone(8 - z + n, 8 * |h| - d);
    } else {
      Pow2Monotone(8 * |h| - d, 7 - z + n);
    }
  }

  lemma {:induction false} LeadingZeroBitsWithin(h: seq<byte>)
    ensures LeadingZeroBits(h) <= 8 * |h|
  {
    if h != [] && h[0] == 0 {
      LeadingZeroBitsWithin(h[1..]);
    }
  }
}
