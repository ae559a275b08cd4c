/** Native representation of integers: two's complement, lowest byte first, as
    on the machines the player is built for. */
module Bytes {
  newtype Byte = x: int | 0 <= x < 256

  /** A C++ string: its length fits in size_t. */
  type Str = s: seq<Byte> | |s| < 0x1_0000_0000_0000_0000
  type Int = x: int | -0x8000_0000 <= x < 0x8000_0000

  function Pow256(w: nat): (p: nat)
    ensures p >= 1
  {
    if w == 0 then 1 else 256 * Pow256(w - 1)
  }

  lemma Pow256Known()
    ensures Pow256(1) == 256
    ensures Pow256(4) == 0x1_0000_0000
    ensures Pow256(8) == 0x1_0000_0000_0000_0000
  {
    assert Pow256(2) == 0x1_0000;
    assert Pow256(3) == 0x100_0000;
    assert Pow256(5) == 0x100_0000_0000;
    assert Pow256(6) == 0x1_0000_0000_0000;
    assert Pow256(7) == 0x100_0000_0000_0000;
  }

  function Little(n: nat, w: nat): (b: seq<Byte>)
    ensures |b| == w
  {
    if w == 0 then [] else [(n % 256) as Byte] + Little(n / 256, w - 1)
  }

  function Number(b: seq<Byte>): nat {
    if b == [] then 0 else b[0] as int + 256 * Number(b[1..])
  }

  lemma {:induction false} NumberOfLittle(n: nat, w: nat)
    requires n < Pow256(w)
    ensures Number(Little(n, w)) == n
  {
    if w > 0 {
      NumberOfLittle(n / 256, w - 1);
      assert Little(n, w)[1..] == Little(n / 256, w - 1);
    }
  }

  lemma {:induction false} LittleOfNumber(b: seq<Byte>)
    ensures Number(b) < Pow256(|b|)
    ensures Little(Number(b), |b|) == b
  {
    if b != [] {
      LittleOfNumber(b[1..]);
      var rest := Number(b[1..]);
      assert (b[0] as int + 256 * rest) % 256 == b[0] as int;
      assert (b[0] as int + 256 * rest) / 256 == rest;
      assert b == [b[0]] + b[1..];
    }
  }

  /** An integer of `w` bytes as the unsigned number with the same bytes. */
  predicate Fits(i: int, w: nat) {
    0 <= 2 * i + Pow256(w) < 2 * Pow256(w)
  }

  function Unsigned(i: int, w: nat): nat
    requires Fits(i, w)
  {
    if i < 0 then i + Pow256(w) else i
  }

  function Signed(u: nat, w: nat): (i: int)
    requires u < Pow256(w)
    ensures Fits(i, w)
  {
    if 2 * u >= Pow256(w) then u - Pow256(w) else u
  }

  function FromInt(i: int, w: nat): (b: seq<Byte>)
    requires Fits(i, w)
    ensures |b| == w
  {
    Little(Unsigned(i, w), w)
  }

  function ToInt(b: seq<Byte>): (i: int)
    ensures Fits(i, |b|)
  {
    LittleOfNumber(b);
    Signed(Number(b), |b|)
  }

  lemma ToIntOfFromInt(i: int, w: nat)
    requires Fits(i, w)
    ensures ToInt(FromInt(i, w)) == i
  {
    NumberOfLittle(Unsigned(i, w), w);
  }

  /** Every pattern of bytes is the representation of the number read from it. */
  lemma FromIntOfToInt(b: seq<Byte>)
    ensures FromInt(ToInt(b), |b|) == b
  {
    LittleOfNumber(b);
  }

  lemma IntFits(i: Int)
    ensures Fits(i, 4)
  {
    Pow256Known();
  }
}
