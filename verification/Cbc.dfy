/**
 Cipher block chaining (section 6.2 of NIST SP 800-38A) over an uninterpreted
 block cipher, and Go's cipher.BlockMode, which keeps the chaining value between calls.
 */
module Cbc {
  import opened Bytes

  datatype Cipher = Cipher(encrypt: Block -> Block, decrypt: Block -> Block)

  /** All that is assumed of AES under one key: a permutation of blocks and its inverse. */
  ghost predicate Permutation(c: Cipher) {
    forall b: Block :: c.decrypt(c.encrypt(b)) == b && c.encrypt(c.decrypt(b)) == b
  }

  predicate Aligned(s: seq<byte>) {
    |s| % BLOCK_SIZE == 0
  }

  /** The longest prefix of s that is a whole number of blocks. */
  function WholeBlocks(s: seq<byte>): (r: seq<byte>)
    ensures Aligned(r)
  {
    s[..|s| - |s| % BLOCK_SIZE]
  }

  function Encrypt(f: Block -> Block, iv: Block, p: seq<byte>): (r: seq<byte>)
    requires Aligned(p)
    ensures |r| == |p|
    decreases |p|
  {
    if |p| == 0 then [] else
      var c := f(XorBlock(p[..BLOCK_SIZE], iv));
      c + Encrypt(f, c, p[BLOCK_SIZE..])
  }

  function Decrypt(f: Block -> Block, iv: Block, c: seq<byte>): (r: seq<byte>)
    requires Aligned(c)
    ensures |r| == |c|
    decreases |c|
  {
    if |c| == 0 then [] else
      XorBlock(f(c[..BLOCK_SIZE]), iv) + Decrypt(f, c[..BLOCK_SIZE], c[BLOCK_SIZE..])
  }

  /** The chaining value left behind by c: its last block, or the old value if c is empty. */
  function Chain(iv: Block, c: seq<byte>): Block
    requires Aligned(c)
  {
    if |c| == 0 then iv else c[|c| - BLOCK_SIZE..]
  }

  lemma DecryptCons(f: Block -> Block, iv: Block, head: Block, rest: seq<byte>)
    requires Aligned(rest)
    ensures Aligned(head + rest)
    ensures Decrypt(f, iv, head + rest) == XorBlock(f(head), iv) + Decrypt(f, head, rest)
  {
  }

  lemma DecryptNil(f: Block -> Block, iv: Block)
    ensures Decrypt(f, iv, []) == []
  {
  }

  lemma AlignedConcat(a: seq<byte>, b: seq<byte>)
    requires Aligned(a) && Aligned(b)
    ensures Aligned(a + b)
  {
  }

  lemma ChainConcat(iv: Block, a: seq<byte>, b: seq<byte>)
    requires Aligned(a) && Aligned(b)
    ensures Aligned(a + b)
    ensures Chain(iv, a + b) == Chain(Chain(iv, a), b)
  {
    if |b| == 0 {
      assert a + b == a;
    } else {
      assert (a + b)[|a + b| - BLOCK_SIZE..] == b[|b| - BLOCK_SIZE..];
    }
  }

  /** The chaining value after a is the same if its first block has already been taken. */
  lemma ChainTail(iv: Block, a: seq<byte>)
    requires Aligned(a) && |a| > 0
    ensures Aligned(a[BLOCK_SIZE..]) && Chain(a[..BLOCK_SIZE], a[BLOCK_SIZE..]) == Chain(iv, a)
  {
    var rest := a[BLOCK_SIZE..];
    if |rest| > 0 {
      assert rest[|rest| - BLOCK_SIZE..] == a[|a| - BLOCK_SIZE..];
    } else {
      assert a[..BLOCK_SIZE] == a;
    }
  }

  lemma {:induction false} DecryptConcat(f: Block -> Block, iv: Block, a: seq<byte>, b: seq<byte>)
    requires Aligned(a) && Aligned(b)
    ensures Aligned(a + b)
    ensures Decrypt(f, iv, a + b) == Decrypt(f, iv, a) + Decrypt(f, Chain(iv, a), b)
    decreases |a|
  {
    AlignedConcat(a, b);
    if |a| == 0 {
      DecryptConcatNil(f, iv, a, b);
    } else {
      hide Decrypt, Chain, Aligned;
      ChainTail(iv, a);
      var head, rest := a[..BLOCK_SIZE], a[BLOCK_SIZE..];
      assert a == head + rest;
      DecryptConcat(f, head, rest, b);
      DecryptConcatStep(f, iv, head, rest, b, Decrypt(f, Chain(iv, a), b));
    }
  }

  lemma DecryptConcatNil(f: Block -> Block, iv: Block, a: seq<byte>, b: seq<byte>)
    requires a == [] && Aligned(b)
    ensures Decrypt(f, iv, a + b) == Decrypt(f, iv, a) + Decrypt(f, Chain(iv, a), b)
  {
    assert a + b == b;
    DecryptNil(f, iv);
    assert [] + Decrypt(f, iv, b) == Decrypt(f, iv, b);
  }

  lemma DecryptConcatStep(f: Block -> Block, iv: Block, head: Block, rest: seq<byte>, b: seq<byte>, tail: seq<byte>)
    requires Aligned(rest) && Aligned(rest + b)
    requires Decrypt(f, head, rest + b) == Decrypt(f, head, rest) + tail
    ensures Aligned(head + rest) && Aligned(head + rest + b)
    ensures Decrypt(f, iv, head + rest + b) == Decrypt(f, iv, head + rest) + tail
  {
    DecryptCons(f, iv, head, rest);
    DecryptCons(f, iv, head, rest + b);
    hide Decrypt, Aligned;
    assert head + (rest + b) == head + rest + b;
    var first, x := XorBlock(f(head), iv), Decrypt(f, head, rest);
    assert first + (x + tail) == (first + x) + tail;
  }

  lemma DecryptSnoc(f: Block -> Block, iv: Block, c: seq<byte>, at: nat)
    requires at + BLOCK_SIZE <= |c| && Aligned(c[..at])
    ensures Aligned(c[..at + BLOCK_SIZE])
    ensures Decrypt(f, iv, c[..at + BLOCK_SIZE]) ==
              Decrypt(f, iv, c[..at]) + Decrypt(f, Chain(iv, c[..at]), c[at..at + BLOCK_SIZE])
    ensures Chain(iv, c[..at + BLOCK_SIZE]) == c[at..at + BLOCK_SIZE]
  {
    hide Decrypt;
    assert c[..at] + c[at..at + BLOCK_SIZE] == c[..at + BLOCK_SIZE];
    ChainConcat(iv, c[..at], c[at..at + BLOCK_SIZE]);
    DecryptConcat(f, iv, c[..at], c[at..at + BLOCK_SIZE]);
  }

  lemma OneBlock(f: Block -> Block, iv: Block, c: Block)
    ensures Decrypt(f, iv, c) == XorBlock(f(c), iv)
  {
    assert c[..BLOCK_SIZE] == c && c[BLOCK_SIZE..] == [];
    assert Decrypt(f, c, c[BLOCK_SIZE..]) == [];
  }

  lemma {:induction false} DecryptInvertsEncrypt(c: Cipher, iv: Block, p: seq<byte>)
    requires Permutation(c) && Aligned(p)
    ensures Decrypt(c.decrypt, iv, Encrypt(c.encrypt, iv, p)) == p
    decreases |p|
  {
    if |p| == 0 {
    } else {
      var head, rest := p[..BLOCK_SIZE], p[BLOCK_SIZE..];
      var first := c.encrypt(XorBlock(head, iv));
      var out := Encrypt(c.encrypt, iv, p);
      assert out[..BLOCK_SIZE] == first && out[BLOCK_SIZE..] == Encrypt(c.encrypt, first, rest);
      XorBlockCancels(head, iv);
      DecryptInvertsEncrypt(c, first, rest);
    }
  }

  lemma {:induction false} EncryptInvertsDecrypt(c: Cipher, iv: Block, x: seq<byte>)
    requires Permutation(c) && Aligned(x)
    ensures Encrypt(c.encrypt, iv, Decrypt(c.decrypt, iv, x)) == x
    decreases |x|
  {
    if |x| == 0 {
    } else {
      var head, rest := x[..BLOCK_SIZE], x[BLOCK_SIZE..];
      var first := XorBlock(c.decrypt(head), iv);
      var out := Decrypt(c.decrypt, iv, x);
      assert out[..BLOCK_SIZE] == first && out[BLOCK_SIZE..] == Decrypt(c.decrypt, head, rest);
      XorBlockCancels(c.decrypt(head), iv);
      EncryptInvertsDecrypt(c, head, rest);
    }
  }

  lemma EncryptCons(f: Block -> Block, iv: Block, head: Block, rest: seq<byte>)
    requires Aligned(rest)
    ensures Aligned(head + rest)
    ensures var c := f(XorBlock(head, iv)); Encrypt(f, iv, head + rest) == c + Encrypt(f, c, rest)
  {
    var p := head + rest;
    assert p[..BLOCK_SIZE] == head && p[BLOCK_SIZE..] == rest;
  }

  lemma ChainCons(iv: Block, head: Block, rest: seq<byte>)
    requires Aligned(rest)
    ensures Aligned(head + rest) && Chain(iv, head + rest) == Chain(head, rest)
  {
    ChainConcat(iv, head, rest);
  }

  lemma EncryptConcatStep(f: Block -> Block, iv: Block, head: Block, rest: seq<byte>, b: seq<byte>, tail: seq<byte>)
    requires Aligned(rest) && Aligned(rest + b)
    requires Encrypt(f, f(XorBlock(head, iv)), rest + b) == Encrypt(f, f(XorBlock(head, iv)), rest) + tail
    ensures Aligned(head + rest) && Aligned(head + rest + b)
    ensures Encrypt(f, iv, head + rest + b) == Encrypt(f, iv, head + rest) + tail
  {
    EncryptCons(f, iv, head, rest);
    EncryptCons(f, iv, head, rest + b);
    hide Encrypt, Aligned;
    assert head + (rest + b) == head + rest + b;
    var c := f(XorBlock(head, iv));
    var x := Encrypt(f, c, rest);
    assert c + (x + tail) == (c + x) + tail;
  }

  lemma EncryptConcatNil(f: Block -> Block, iv: Block, a: seq<byte>, b: seq<byte>)
    requires a == [] && Aligned(b)
    ensures Encrypt(f, iv, a) == [] && Chain(iv, Encrypt(f, iv, a)) == iv
    ensures Encrypt(f, iv, a + b) == [] + Encrypt(f, iv, b)
  {
    assert a + b == b;
  }

  lemma {:induction false} EncryptConcat(f: Block -> Block, iv: Block, a: seq<byte>, b: seq<byte>)
    requires Aligned(a) && Aligned(b)
    ensures Aligned(a + b) && Aligned(Encrypt(f, iv, a))
    ensures Encrypt(f, iv, a + b) == Encrypt(f, iv, a) + Encrypt(f, Chain(iv, Encrypt(f, iv, a)), b)
    decreases |a|
  {
    AlignedConcat(a, b);
    if |a| == 0 {
      EncryptConcatNil(f, iv, a, b);
    } else {
      var head, rest := a[..BLOCK_SIZE], a[BLOCK_SIZE..];
      assert Aligned(rest) && Aligned(rest + b);
      hide Encrypt, Chain, Aligned;
      var c := f(XorBlock(head, iv));
      EncryptConcat(f, c, rest, b);
      assert a == head + rest;
      EncryptCons(f, iv, head, rest);
      ChainCons(iv, c, Encrypt(f, c, rest));
      EncryptConcatStep(f, iv, head, rest, b, Encrypt(f, Chain(c, Encrypt(f, c, rest)), b));
    }
  }

  lemma EncryptBlock(f: Block -> Block, iv: Block, p: Block)
    ensures Encrypt(f, iv, p) == f(XorBlock(p, iv))
  {
    assert p[..BLOCK_SIZE] == p && p[BLOCK_SIZE..] == [];
    assert Encrypt(f, f(XorBlock(p, iv)), p[BLOCK_SIZE..]) == [];
  }

  // ---- The equations of section 6.2 of NIST SP 800-38A ----

  /** Plaintext block k is the decrypted block k, exclusive or the ciphertext block before it, or the initial value. */
  lemma DecryptedBlock(f: Block -> Block, iv: Block, c: seq<byte>, k: nat)
    requires Aligned(c) && 16 * k + 16 <= |c|
    ensures Decrypt(f, iv, c)[16 * k..16 * k + 16] ==
              XorBlock(f(c[16 * k..16 * k + 16]), if k == 0 then iv else c[16 * k - 16..16 * k])
  {
    hide Decrypt, Aligned;
    Regather(c, 16 * k);
    AlignedParts(c, k);
    DecryptedMiddle(f, iv, c[..16 * k], c[16 * k..16 * k + 16], c[16 * k + 16..]);
  }

  lemma DecryptedMiddle(f: Block -> Block, iv: Block, a: seq<byte>, x: Block, b: seq<byte>)
    requires Aligned(a) && Aligned(b)
    ensures Aligned(a + (x + b))
    ensures Decrypt(f, iv, a + (x + b))[|a|..|a| + 16] == XorBlock(f(x), if |a| == 0 then iv else a[|a| - 16..])
  {
    hide Decrypt, Chain, Aligned;
    AlignedConcat(x, b);
    AlignedConcat(a, x + b);
    DecryptConcat(f, iv, a, x + b);
    DecryptCons(f, Chain(iv, a), x, b);
    Middle(Decrypt(f, iv, a), XorBlock(f(x), Chain(iv, a)), Decrypt(f, x, b));
    LastLink(iv, a);
  }

  lemma AlignedParts(c: seq<byte>, k: nat)
    requires Aligned(c) && 16 * k + 16 <= |c|
    ensures Aligned(c[..16 * k]) && Aligned(c[16 * k + 16..])
  {
  }

  lemma Regather(c: seq<byte>, at: nat)
    requires at + 16 <= |c|
    ensures c == c[..at] + (c[at..at + 16] + c[at + 16..])
    ensures at >= 16 ==> c[..at][at - 16..] == c[at - 16..at]
  {
  }

  lemma Middle(a: seq<byte>, x: seq<byte>, b: seq<byte>)
    requires |x| == 16
    ensures (a + (x + b))[|a|..|a| + 16] == x
    ensures |a| >= 16 ==> (a + (x + b))[|a| - 16..|a|] == a[|a| - 16..]
  {
  }

  lemma LastLink(iv: Block, a: seq<byte>)
    requires Aligned(a)
    ensures Chain(iv, a) == if |a| == 0 then iv else a[|a| - 16..]
  {
  }

  /** Ciphertext block k encrypts plaintext block k, exclusive or the ciphertext block before it, or the initial value. */
  lemma EncryptedBlock(f: Block -> Block, iv: Block, p: seq<byte>, k: nat)
    requires Aligned(p) && 16 * k + 16 <= |p|
    ensures var c := Encrypt(f, iv, p);
            c[16 * k..16 * k + 16] ==
              f(XorBlock(p[16 * k..16 * k + 16], if k == 0 then iv else c[16 * k - 16..16 * k]))
  {
    hide Encrypt, Aligned;
    Regather(p, 16 * k);
    AlignedParts(p, k);
    EncryptedMiddle(f, iv, p[..16 * k], p[16 * k..16 * k + 16], p[16 * k + 16..]);
  }

  lemma EncryptedMiddle(f: Block -> Block, iv: Block, a: seq<byte>, x: Block, b: seq<byte>)
    requires Aligned(a) && Aligned(b)
    ensures Aligned(a + (x + b))
    ensures var c := Encrypt(f, iv, a + (x + b));
            c[|a|..|a| + 16] == f(XorBlock(x, if |a| < 16 then iv else c[|a| - 16..|a|]))
  {
    AlignedLength(a);
    hide Encrypt, Chain, Aligned;
    AlignedConcat(x, b);
    AlignedConcat(a, x + b);
    EncryptConcat(f, iv, a, x + b);
    var before := Encrypt(f, iv, a);
    EncryptCons(f, Chain(iv, before), x, b);
    var y := f(XorBlock(x, Chain(iv, before)));
    Middle(before, y, Encrypt(f, y, b));
    LastLink(iv, before);
  }

  lemma AlignedLength(a: seq<byte>)
    requires Aligned(a)
    ensures |a| < 16 ==> |a| == 0
    ensures forall c: seq<byte> :: |c| == |a| ==> Aligned(c)
  {
  }

  /** Go's CBC decrypter: the chaining value survives from one CryptBlocks call to the next. */
  class Decrypter {
    const f: Block -> Block
    var iv: Block

    constructor (f: Block -> Block, iv: Block)
      ensures this.f == f && this.iv == iv
    {
      this.f := f;
      this.iv := iv;
    }

    /** Decrypts src[..n] into dst[..n], one block at a time. */
    method CryptBlocks(dst: array<byte>, src: array<byte>, n: nat)
      requires dst != src && n <= dst.Length && n <= src.Length && n % BLOCK_SIZE == 0
      modifies this, dst
      ensures dst[..n] == Decrypt(f, old(iv), src[..n])
      ensures dst[n..] == old(dst[n..])
      ensures iv == Chain(old(iv), src[..n])
    {
      var at := 0;
      while at < n
        invariant 0 <= at <= n && at % BLOCK_SIZE == 0
        invariant dst[..at] == Decrypt(f, old(iv), src[..at])
        invariant dst[at..] == old(dst[at..])
        invariant iv == Chain(old(iv), src[..at])
      {
        hide Decrypt, Chain;
        ghost var rest := dst[at..];
        NextBlock(dst, src, at, old(iv));
        at := at + BLOCK_SIZE;
        assert dst[at..] == rest[BLOCK_SIZE..];
      }
    }

    /** The loop body of CryptBlocks: at bytes are done, and one more block gets done. */
    method NextBlock(dst: array<byte>, src: array<byte>, at: nat, ghost iv0: Block)
      requires dst != src && at + BLOCK_SIZE <= dst.Length && at + BLOCK_SIZE <= src.Length && at % BLOCK_SIZE == 0
      requires dst[..at] == Decrypt(f, iv0, src[..at]) && iv == Chain(iv0, src[..at])
      modifies this, dst
      ensures dst[..at + BLOCK_SIZE] == Decrypt(f, iv0, src[..at + BLOCK_SIZE])
      ensures iv == Chain(iv0, src[..at + BLOCK_SIZE])
      ensures dst[at + BLOCK_SIZE..] == old(dst[at + BLOCK_SIZE..])
    {
      hide Decrypt, Chain;
      ghost var s := src[..at + BLOCK_SIZE];
      DecryptSnoc(f, iv0, s, at);
      assert s[..at] == src[..at] && s[..at + BLOCK_SIZE] == s && s[at..at + BLOCK_SIZE] == src[at..at + BLOCK_SIZE];
      CryptBlock(dst, src, at);
      assert dst[..at + BLOCK_SIZE] == dst[..at] + dst[at..at + BLOCK_SIZE];
    }

    /** One step of the chain: plaintext block out, ciphertext block kept as chaining value. */
    method CryptBlock(dst: array<byte>, src: array<byte>, at: nat)
      requires dst != src && at + BLOCK_SIZE <= dst.Length && at + BLOCK_SIZE <= src.Length
      modifies this, dst
      ensures dst[at..at + BLOCK_SIZE] == Decrypt(f, old(iv), src[at..at + BLOCK_SIZE])
      ensures dst[..at] == old(dst[..at]) && dst[at + BLOCK_SIZE..] == old(dst[at + BLOCK_SIZE..])
      ensures iv == src[at..at + BLOCK_SIZE]
    {
      var c: Block := src[at..at + BLOCK_SIZE];
      var p: Block := XorBlock(f(c), iv);
      forall i | 0 <= i < BLOCK_SIZE {
        dst[at + i] := p[i];
      }
      assert dst[at..at + BLOCK_SIZE] == p;
      OneBlock(f, iv, c);
      iv := c;
      assert src[at..at + BLOCK_SIZE] == c;
    }
  }

  lemma OneLink(iv: Block, c: Block)
    ensures Chain(iv, c) == c
  {
  }

  /** Go's CBC encrypter, whose chaining value is the last ciphertext block. */
  class Encrypter {
    const f: Block -> Block
    var iv: Block

    constructor (f: Block -> Block, iv: Block)
      ensures this.f == f && this.iv == iv
    {
      this.f := f;
      this.iv := iv;
    }

    /** Encrypts src into dst, one block at a time. */
    method CryptBlocks(dst: array<byte>, src: array<byte>)
      requires dst != src && dst.Length == src.Length && Aligned(src[..])
      modifies this, dst
      ensures dst[..] == Encrypt(f, old(iv), src[..])
      ensures iv == Chain(old(iv), dst[..])
    {
      var at := 0;
      ghost var iv0 := iv;
      while at < src.Length
        invariant 0 <= at <= src.Length && at % BLOCK_SIZE == 0
        invariant dst[..at] == Encrypt(f, iv0, src[..at])
        invariant iv == Chain(iv0, dst[..at])
      {
        hide Encrypt, Chain;
        NextBlock(dst, src, at, iv0);
        at := at + BLOCK_SIZE;
      }
      assert dst[..at] == dst[..] && src[..at] == src[..];
    }

    method NextBlock(dst: array<byte>, src: array<byte>, at: nat, ghost iv0: Block)
      requires dst != src && at + BLOCK_SIZE <= dst.Length == src.Length && at % BLOCK_SIZE == 0
      requires dst[..at] == Encrypt(f, iv0, src[..at]) && iv == Chain(iv0, dst[..at])
      modifies this, dst
      ensures dst[..at + BLOCK_SIZE] == Encrypt(f, iv0, src[..at + BLOCK_SIZE])
      ensures iv == Chain(iv0, dst[..at + BLOCK_SIZE])
    {
      hide Encrypt, Chain;
      var p: Block := src[at..at + BLOCK_SIZE];
      EncryptBlock(f, iv, p);
      EncryptConcat(f, iv0, src[..at], p);
      assert src[..at] + p == src[..at + BLOCK_SIZE];
      ghost var done := dst[..at];
      CryptBlock(dst, src, at);
      assert dst[..at + BLOCK_SIZE] == done + dst[at..at + BLOCK_SIZE];
      ChainConcat(iv0, done, dst[at..at + BLOCK_SIZE]);
      OneLink(Chain(iv0, done), dst[at..at + BLOCK_SIZE]);
    }

    /** One step of the chain: the ciphertext block is written, and is the next chaining value. */
    method CryptBlock(dst: array<byte>, src: array<byte>, at: nat)
      requires dst != src && at + BLOCK_SIZE <= dst.Length && at + BLOCK_SIZE <= src.Length
      modifies this, dst
      ensures dst[at..at + BLOCK_SIZE] == f(XorBlock(src[at..at + BLOCK_SIZE], old(iv)))
      ensures dst[..at] == old(dst[..at]) && dst[at + BLOCK_SIZE..] == old(dst[at + BLOCK_SIZE..])
      ensures iv == dst[at..at + BLOCK_SIZE]
    {
      var p: Block := src[at..at + BLOCK_SIZE];
      var c: Block := f(XorBlock(p, iv));
      forall i | 0 <= i < BLOCK_SIZE {
        dst[at + i] := c[i];
      }
      assert dst[at..at + BLOCK_SIZE] == c;
      iv := c;
      assert src[at..at + BLOCK_SIZE] == p;
    }
  }
}
