/**
 PKCS#7 padding (section 6.3 of RFC 5652). WeCom pads to 32 bytes although the AES
 block is 16; both pkcs7Unpad (any block size) and pkcs7Unpad32 are the function Unpad here.
 */
module Padding {
  import opened Wrappers
  import opened Bytes

  const PAD_BLOCK := 32

  datatype PadError = EmptyBuffer | InvalidLength(padLen: int) | Mismatch

  function Repeat(b: byte, n: nat): (r: seq<byte>)
    ensures |r| == n
  {
    seq(n, _ => b)
  }

  /** The amount of padding: between 1 and blockSize bytes, up to the next multiple. */
  function PadLength(n: nat, blockSize: int): (p: int)
    requires blockSize > 0
    ensures 1 <= p <= blockSize
  {
    blockSize - n % blockSize
  }

  /** The pad byte is byte(padLen), so a padding length of 256 or more wraps around. */
  function Pad(data: seq<byte>, blockSize: int): seq<byte>
    requires blockSize > 0
  {
    var padLen := PadLength(|data|, blockSize);
    data + Repeat(padLen % 256, padLen)
  }

  predicate PaddedBy(data: seq<byte>, padLen: int) {
    0 <= padLen <= |data| && forall i :: |data| - padLen <= i < |data| ==> data[i] == padLen
  }

  function Unpad(data: seq<byte>, blockSize: int): (r: Result<seq<byte>, PadError>)
    ensures r.Ok? ==> |data| - blockSize <= |r.value| < |data| && r.value <= data
  {
    if |data| == 0 then Err(EmptyBuffer) else
    var padLen := data[|data| - 1];
    if padLen < 1 || padLen > blockSize || padLen > |data| then Err(InvalidLength(padLen))
    else if !PaddedBy(data, padLen) then Err(Mismatch)
    else Ok(data[..|data| - padLen])
  }

  method Pkcs7Pad(data: seq<byte>, blockSize: int) returns (out: seq<byte>)
    requires blockSize > 0
    ensures out == Pad(data, blockSize)
  {
    var padLen := blockSize - |data| % blockSize;
    if padLen == 0 {
      padLen := blockSize;
    }
    out := data;
    out := out + Repeat(padLen % 256, padLen);
  }

  method Pkcs7Unpad(data: seq<byte>, blockSize: int) returns (r: Result<seq<byte>, PadError>)
    ensures r == Unpad(data, blockSize)
  {
    if |data| == 0 {
      return Err(EmptyBuffer);
    }
    var padLen := data[|data| - 1];
    if padLen < 1 || padLen > blockSize || padLen > |data| {
      return Err(InvalidLength(padLen));
    }
    var i := |data| - padLen;
    while i < |data|
      invariant |data| - padLen <= i <= |data|
      invariant forall k :: |data| - padLen <= k < i ==> data[k] == padLen
    {
      if data[i] != padLen {
        return Err(Mismatch);
      }
      i := i + 1;
    }
    return Ok(data[..|data| - padLen]);
  }

  /** Unpad accepts exactly the strings that end in p copies of p, for some p up to the block size. */
  lemma UnpadAccepts(x: seq<byte>, d: seq<byte>, blockSize: int)
    ensures Unpad(x, blockSize) == Ok(d) <==>
            exists p: byte :: 1 <= p <= blockSize && x == d + Repeat(p, p)
  {
    if Unpad(x, blockSize) == Ok(d) {
      var p := x[|x| - 1];
      assert x == x[..|x| - p] + x[|x| - p..];
      assert x[|x| - p..] == Repeat(p, p);
    }
    forall p: byte | 1 <= p <= blockSize && x == d + Repeat(p, p)
      ensures Unpad(x, blockSize) == Ok(d)
    {
      assert x[|x| - 1] == Repeat(p, p)[p - 1] == p;
      assert x[..|x| - p] == d;
    }
  }

  /** And the others are rejected: by their last byte, or else because it is not repeated often enough. */
  lemma UnpadRejects(x: seq<byte>, blockSize: int)
    ensures Unpad(x, blockSize) == Err(EmptyBuffer) <==> x == []
    ensures x != [] ==>
              var p := x[|x| - 1];
              && (Unpad(x, blockSize) == Err(InvalidLength(p)) <==> p == 0 || p > blockSize || p > |x|)
              && (Unpad(x, blockSize) == Err(Mismatch) <==>
                    1 <= p <= blockSize && p <= |x| && x[|x| - p..] != Repeat(p, p))
  {
    if x != [] && x[|x| - 1] <= |x| {
      var p := x[|x| - 1];
      var tail := x[|x| - p..];
      assert PaddedBy(x, p) <==> tail == Repeat(p, p) by {
        if tail == Repeat(p, p) {
          forall i | |x| - p <= i < |x| ensures x[i] == p {
            assert x[i] == tail[i - (|x| - p)];
          }
        }
      }
    }
  }

  /** Padding is undone exactly when its length fits in the pad byte; with 32-byte blocks it always does. */
  lemma UnpadInvertsPad(d: seq<byte>, blockSize: int)
    requires blockSize > 0
    ensures Unpad(Pad(d, blockSize), blockSize) == Ok(d) <==> PadLength(|d|, blockSize) < 256
  {
  }

  lemma PadAligned(d: seq<byte>)
    ensures |Pad(d, PAD_BLOCK)| % PAD_BLOCK == 0 && |Pad(d, PAD_BLOCK)| % BLOCK_SIZE == 0
  {
    var q := |d| / PAD_BLOCK;
    assert |Pad(d, PAD_BLOCK)| == PAD_BLOCK * (q + 1);
    Multiple(q + 1);
  }

  lemma Multiple(k: nat)
    ensures (PAD_BLOCK * k) % PAD_BLOCK == 0 && (PAD_BLOCK * k) % BLOCK_SIZE == 0
  {
  }

  /** Padding is canonical: an accepted string of full length is the padding of its contents. */
  lemma PadInvertsUnpad(x: seq<byte>, d: seq<byte>, blockSize: int)
    requires blockSize > 0
    requires Unpad(x, blockSize) == Ok(d) && |x| % blockSize == 0
    ensures Pad(d, blockSize) == x
  {
    UnpadAccepts(x, d, blockSize);
    var p: byte :| 1 <= p <= blockSize && x == d + Repeat(p, p);
    PadLengthUnique(|d|, p, blockSize);
  }

  lemma PadLengthUnique(n: nat, p: int, blockSize: int)
    requires 1 <= p <= blockSize && (n + p) % blockSize == 0
    ensures PadLength(n, blockSize) == p
  {
    var q, r := n / blockSize, n % blockSize;
    assert n + p == blockSize * q + (r + p);
    var whole := (n + p) / blockSize;
    assert n + p == blockSize * whole;
    assert blockSize * (whole - q) == r + p;
    assert 0 < r + p < 2 * blockSize;
    OnlyMultiple(whole - q, blockSize);
  }

  lemma OnlyMultiple(k: int, n: int)
    requires n > 0 && 0 < n * k < 2 * n
    ensures k == 1
  {
  }

  /** Unpadding only the last min(blockSize, |x|) bytes decides the same and removes the same bytes. */
  lemma UnpadTail(x: seq<byte>, keep: nat, blockSize: int)
    requires blockSize > 0 && keep == if |x| < blockSize then |x| else blockSize
    ensures var tail := Unpad(x[|x| - keep..], blockSize);
            Unpad(x, blockSize) ==
              if tail.Ok? then Ok(x[..|x| - keep] + tail.value) else Err(tail.error)
  {
    var y := x[|x| - keep..];
    if keep > 0 {
      var padLen := x[|x| - 1];
      assert y[keep - 1] == padLen;
      if 1 <= padLen <= keep {
        assert forall i :: keep - padLen <= i < keep ==> y[i] == x[|x| - keep + i];
        assert forall i :: |x| - padLen <= i < |x| ==> x[i] == y[i - (|x| - keep)];
        assert PaddedBy(x, padLen) <==> PaddedBy(y, padLen);
        assert x[..|x| - padLen] == x[..|x| - keep] + y[..keep - padLen];
      }
    }
  }
}
