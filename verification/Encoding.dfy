/** Little-endian words, length-prefixed strings and hex: the byte layouts everything hashed is built from. */
module Encoding {
  import opened Machine

  // ---- little-endian words ----

  ghost function Pow256(n: nat): nat {
    if n == 0 then 1 else 256 * Pow256(n - 1)
  }

  /** The byte of weight `256^i`. */
  function ByteAt(x: nat, i: nat): byte {
    if i == 0 then x % 256 else ByteAt(x / 256, i - 1)
  }

  function Le(n: nat, x: nat): (bs: seq<byte>)
    ensures |bs| == n
  {
    seq(n, i requires 0 <= i < n => ByteAt(x, i))
  }

  lemma LeStep(n: nat, x: nat)
    requires n > 0
    ensures Le(n, x) == [x % 256] + Le(n - 1, x / 256)
  {
  }

  function FromLe(bs: seq<byte>): (x: nat)
    ensures x < Pow256(|bs|)
  {
    if bs == [] then 0 else bs[0] + 256 * FromLe(bs[1..])
  }

  lemma {:induction false} FromLeOfLe(n: nat, x: nat)
    requires x < Pow256(n)
    ensures FromLe(Le(n, x)) == x
  {
    if n > 0 {
      FromLeOfLe(n - 1, x / 256);
      LeStep(n, x);
      assert Le(n, x)[1..] == Le(n - 1, x / 256);
    }
  }

  lemma {:induction false} LeOfFromLe(bs: seq<byte>)
    ensures Le(|bs|, FromLe(bs)) == bs
  {
    if bs != [] {
      LeOfFromLe(bs[1..]);
      LeStep(|bs|, FromLe(bs));
      assert FromLe(bs) / 256 == FromLe(bs[1..]);
    }
  }

  lemma Pow256Of8()
    ensures Pow256(8) == TWO64
  {
  }

  /** `x.to_le_bytes()`. */
  function Le64(x: u64): (bs: seq<byte>)
    ensures |bs| == 8
  {
    Le(8, x)
  }

  lemma Le64Injective(x: u64, y: u64)
    requires Le64(x) == Le64(y)
    ensures x == y
  {
    Pow256Of8();
    FromLeOfLe(8, x);
    FromLeOfLe(8, y);
  }

  function TakeU64(bs: seq<byte>): (r: Option<(u64, seq<byte>)>)
    ensures r.Some? ==> |r.value.1| <= |bs|
  {
    if |bs| < 8 then None
    else
      assert FromLe(bs[..8]) < TWO64 by { Pow256Of8(); }
      Some((FromLe(bs[..8]), bs[8..]))
  }

  lemma TakeU64Inverts(x: u64, bs: seq<byte>, rest: seq<byte>)
    ensures TakeU64(bs) == Some((x, rest)) <==> bs == Le64(x) + rest
  {
    Pow256Of8();
    if bs == Le64(x) + rest {
      FromLeOfLe(8, x);
      assert bs[..8] == Le64(x) && bs[8..] == rest;
    }
    if TakeU64(bs) == Some((x, rest)) {
      LeOfFromLe(bs[..8]);
      assert bs == bs[..8] + bs[8..];
    }
  }

  // ---- length-prefixed strings ----

  /** bincode's fixed-width encoding of a `String` or `Vec<u8>`: a 64-bit length, then the bytes. */
  function EncodeBytes(s: Bytes): seq<byte> {
    Le64(|s|) + s
  }

  function TakeBytes(bs: seq<byte>): Option<(Bytes, seq<byte>)> {
    var (n, tail) :- TakeU64(bs);
    if |tail| < n then None else Some((tail[..n], tail[n..]))
  }

  lemma TakeBytesInverts(s: Bytes, bs: seq<byte>, rest: seq<byte>)
    ensures TakeBytes(bs) == Some((s, rest)) <==> bs == EncodeBytes(s) + rest
  {
    if bs == EncodeBytes(s) + rest {
      assert bs == Le64(|s|) + (s + rest);
      TakeU64Inverts(|s|, bs, s + rest);
      assert (s + rest)[..|s|] == s && (s + rest)[|s|..] == rest;
    }
    if TakeBytes(bs) == Some((s, rest)) {
      var (n, tail) := TakeU64(bs).value;
      TakeU64Inverts(n, bs, tail);
      assert tail == s + rest;
      assert bs == EncodeBytes(s) + rest;
    }
  }

  // ---- hex ----

  function HexDigit(n: int): (d: byte)
    requires 0 <= n < 16
  {
    if n < 10 then 48 + n else 87 + n
  }

  /** One hex digit, either case, as `hex::decode` reads it. */
  function HexValue(c: byte): (r: Option<int>)
    ensures r.Some? ==> 0 <= r.value < 16
  {
    if 48 <= c <= 57 then Some(c - 48)
    else if 97 <= c <= 102 then Some(c - 87)
    else if 65 <= c <= 70 then Some(c - 55)
    else None
  }

  /** `to_hex`: two lower-case digits a byte, high nibble first. */
  function ToHex(bs: seq<byte>): (s: seq<byte>)
    ensures |s| == 2 * |bs|
  {
    if bs == [] then [] else [HexDigit(bs[0] / 16), HexDigit(bs[0] % 16)] + ToHex(bs[1..])
  }

  /** `hex::decode`; `None` where it returns an error (`hex_to_bytes` then panics). */
  function HexToBytes(s: seq<byte>): Option<seq<byte>> {
    if s == [] then Some([])
    else if |s| == 1 then None
    else
      var hi :- HexValue(s[0]);
      var lo :- HexValue(s[1]);
      var rest :- HexToBytes(s[2..]);
      Some([16 * hi + lo] + rest)
  }

  /** Decoding undoes encoding, so hex is injective and a block hash never makes `hex_to_bytes` panic. */
  lemma {:induction false} HexRoundTrip(bs: seq<byte>)
    ensures HexToBytes(ToHex(bs)) == Some(bs)
  {
    if bs != [] {
      HexRoundTrip(bs[1..]);
      assert ToHex(bs)[2..] == ToHex(bs[1..]);
      assert [bs[0]] + bs[1..] == bs;
    }
  }

  lemma HexInjective(a: seq<byte>, b: seq<byte>)
    requires ToHex(a) == ToHex(b)
    ensures a == b
  {
    HexRoundTrip(a);
    HexRoundTrip(b);
  }
}
