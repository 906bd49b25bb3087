/** Bytes, the 16-byte AES block, and bytewise exclusive or. */
module Bytes {
  type byte = x: int | 0 <= x < 256

  const BLOCK_SIZE := 16

  type Block = s: seq<byte> | |s| == BLOCK_SIZE witness seq(BLOCK_SIZE, _ => 0)

  /** Exclusive or of the k low bits of a and b. */
  function XorBits(a: nat, b: nat, k: nat): (r: nat) {
    if k == 0 then 0 else (a + b) % 2 + 2 * XorBits(a / 2, b / 2, k - 1)
  }

  lemma {:induction false} XorBitsBound(a: nat, b: nat, k: nat)
    ensures XorBits(a, b, k) < Pow2(k)
  {
    if k == 0 {
    } else {
      XorBitsBound(a / 2, b / 2, k - 1);
    }
  }

  lemma LowBit(bit: nat, rest: nat)
    requires bit < 2
    ensures (bit + 2 * rest) / 2 == rest && (bit + 2 * rest) % 2 == bit
  {
  }

  lemma SumParity(a: nat, b: nat, rest: nat)
    ensures ((a + b) % 2 + 2 * rest + b) % 2 == a % 2
  {
  }

  lemma {:induction false} XorBitsCancels(a: nat, b: nat, k: nat)
    requires a < Pow2(k)
    ensures XorBits(XorBits(a, b, k), b, k) == a
  {
    if k == 0 {
    } else {
      var rest := XorBits(a / 2, b / 2, k - 1);
      var x := (a + b) % 2 + 2 * rest;
      LowBit((a + b) % 2, rest);
      SumParity(a, b, rest);
      XorBitsCancels(a / 2, b / 2, k - 1);
      assert XorBits(x, b, k) == (x + b) % 2 + 2 * XorBits(x / 2, b / 2, k - 1);
    }
  }

  function Pow2(k: nat): (r: nat)
    ensures r > 0
  {
    if k == 0 then 1 else 2 * Pow2(k - 1)
  }

  function Xor(a: byte, b: byte): byte {
    assert Pow2(8) == 256 by { assert Pow2(4) == 16; }
    XorBitsBound(a, b, 8);
    XorBits(a, b, 8)
  }

  lemma XorCancels(a: byte, b: byte)
    ensures Xor(Xor(a, b), b) == a
  {
    assert Pow2(8) == 256 by { assert Pow2(4) == 16; }
    XorBitsCancels(a, b, 8);
  }

  function XorBlock(a: Block, b: Block): Block {
    seq(BLOCK_SIZE, i requires 0 <= i < BLOCK_SIZE => Xor(a[i], b[i]))
  }

  lemma XorStep(a: nat, b: nat, k: nat)
    requires k > 0
    ensures XorBits(a, b, k) / 2 == XorBits(a / 2, b / 2, k - 1) && XorBits(a, b, k) % 2 == (a + b) % 2
  {
    LowBit((a + b) % 2, XorBits(a / 2, b / 2, k - 1));
  }

  /** Bit j of x, counted from the lowest. */
  function Bit(x: nat, j: nat): (bit: nat)
    ensures bit < 2
  {
    if j == 0 then x % 2 else Bit(x / 2, j - 1)
  }

  lemma {:induction false} XorBitAt(a: nat, b: nat, k: nat, j: nat)
    requires j < k
    ensures Bit(XorBits(a, b, k), j) == (Bit(a, j) + Bit(b, j)) % 2
  {
    hide XorBits;
    XorStep(a, b, k);
    if j > 0 {
      XorBitAt(a / 2, b / 2, k - 1, j - 1);
    }
  }

  /** Bit j of byte i of the block is set exactly if it is set in one of a and b and not in the other. */
  lemma XorBlockBits(a: Block, b: Block, i: nat, j: nat)
    requires i < 16 && j < 8
    ensures Bit(XorBlock(a, b)[i], j) == 1 <==> Bit(a[i], j) != Bit(b[i], j)
  {
    XorBitAt(a[i], b[i], 8, j);
  }

  lemma XorBlockCancels(a: Block, b: Block)
    ensures XorBlock(XorBlock(a, b), b) == a
  {
    forall i | 0 <= i < BLOCK_SIZE ensures XorBlock(XorBlock(a, b), b)[i] == a[i] {
      XorCancels(a[i], b[i]);
    }
  }
}
