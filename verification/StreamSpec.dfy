/**
 What streaming decryption must compute, stated on whole byte strings: the
 source as a sequence of reads, and "decrypt everything, then unpad".
 */
module StreamSpec {
  import opened Wrappers
  import opened Bytes
  import opened Cbc
  import opened Padding

  /** How a read of the source ended: nil, io.EOF, or any other error. */
  datatype Status = More | AtEof | Broken(code: int)

  /** One Read of the source: the bytes it filled in and the error returned beside them. */
  datatype SourceRead = SourceRead(data: seq<byte>, status: Status)

  datatype StreamError =
    | SourceFailed(code: int)
    | Misaligned(trailing: int)
    | BadPadding(reason: PadError)

  type Script = nat -> SourceRead

  /** All bytes given by the first n reads. */
  function Consumed(script: Script, n: nat): (r: seq<byte>) {
    if n == 0 then [] else Consumed(script, n - 1) + script(n - 1).data
  }

  ghost predicate OpenUntil(script: Script, n: nat) {
    forall i: nat :: i < n ==> script(i).status == More
  }

  ghost predicate EndsAt(script: Script, end: nat) {
    OpenUntil(script, end) && script(end).status != More
  }

  /** Decrypt the whole ciphertext at once, then strip the padding. */
  function Whole(f: Block -> Block, iv: Block, c: seq<byte>): Result<seq<byte>, StreamError> {
    if !Aligned(c) then Err(Misaligned(|c| % BLOCK_SIZE)) else
    match Unpad(Decrypt(f, iv, c), PAD_BLOCK)
    case Ok(p) => Ok(p)
    case Err(e) => Err(BadPadding(e))
  }

  /** What a stream whose read number end is its last must amount to. */
  function FinalResult(f: Block -> Block, iv: Block, script: Script, end: nat): Result<seq<byte>, StreamError> {
    match script(end).status
    case Broken(code) => Err(SourceFailed(code))
    case _ => Whole(f, iv, Consumed(script, end + 1))
  }

  function HeldBack(n: nat): nat {
    if n < PAD_BLOCK then n else PAD_BLOCK
  }

  /** The plaintext that can be given out without knowing whether c goes on. */
  function Released(f: Block -> Block, iv: Block, c: seq<byte>): seq<byte> {
    var p := Decrypt(f, iv, WholeBlocks(c));
    p[..|p| - HeldBack(|p|)]
  }

  /**
   The state of the decryptor after the ciphertext c, as values: unaligned ciphertext left over,
   chaining value, plaintext held back, and plaintext released.
   */
  ghost predicate InStep(f: Block -> Block, iv0: Block, c: seq<byte>,
                         carry: seq<byte>, iv: Block, hold: seq<byte>, released: seq<byte>)
  {
    var whole := WholeBlocks(c);
    && carry == c[|whole|..]
    && iv == Chain(iv0, whole)
    && |hold| == HeldBack(|whole|)
    && released + hold == Decrypt(f, iv0, whole)
  }

  lemma InStepStart(f: Block -> Block, iv: Block)
    ensures InStep(f, iv, [], [], iv, [], [])
  {
  }

  /** To be in step with c, given the split of c into whole blocks and a residue. */
  lemma InStepOf(f: Block -> Block, iv0: Block, whole: seq<byte>, carry: seq<byte>,
                 iv: Block, hold: seq<byte>, released: seq<byte>)
    requires Aligned(whole) && |carry| < BLOCK_SIZE
    requires iv == Chain(iv0, whole) && |hold| == HeldBack(|whole|) && released + hold == Decrypt(f, iv0, whole)
    ensures InStep(f, iv0, whole + carry, carry, iv, hold, released)
  {
    WholeBlocksSplit(whole, carry);
    hide Decrypt, Chain, WholeBlocks, Aligned, HeldBack;
  }

  lemma WholeBlocksSplit(whole: seq<byte>, rest: seq<byte>)
    requires Aligned(whole) && |rest| < BLOCK_SIZE
    ensures WholeBlocks(whole + rest) == whole && (whole + rest)[|whole|..] == rest
  {
    assert |whole + rest| % BLOCK_SIZE == |rest|;
  }

  lemma WholeBlocksRest(c: seq<byte>)
    ensures |WholeBlocks(c)| <= |c| < |WholeBlocks(c)| + BLOCK_SIZE
    ensures c == WholeBlocks(c) + c[|WholeBlocks(c)|..]
  {
  }

  /** One chunk further, on the pieces: usable blocks and residue, new plaintext, what is released and what is held. */
  lemma InStepNext(f: Block -> Block, iv0: Block, whole: seq<byte>, carry: seq<byte>, iv: Block, hold: seq<byte>,
                   released: seq<byte>, chunk: seq<byte>, usable: seq<byte>, residue: seq<byte>,
                   out: seq<byte>, hold': seq<byte>)
    requires Aligned(whole) && Aligned(usable) && |residue| < BLOCK_SIZE && carry + chunk == usable + residue
    requires iv == Chain(iv0, whole) && released + hold == Decrypt(f, iv0, whole)
    requires hold + Decrypt(f, iv, usable) == out + hold' && |hold'| == HeldBack(|whole| + |usable|)
    ensures InStep(f, iv0, whole + carry + chunk, residue, Chain(iv, usable), hold', released + out)
  {
    AlignedConcat(whole, usable);
    DecryptConcat(f, iv0, whole, usable);
    ChainConcat(iv0, whole, usable);
    hide Decrypt, Chain, Aligned, HeldBack, InStep;
    Regroup(released, hold, Decrypt(f, iv, usable), out, hold');
    InStepOf(f, iv0, whole + usable, residue, Chain(iv, usable), hold', released + out);
    Regroup(whole, carry, chunk, usable, residue);
  }

  lemma Regroup(a: seq<byte>, b: seq<byte>, c: seq<byte>, x: seq<byte>, y: seq<byte>)
    requires b + c == x + y
    ensures (a + b) + c == (a + x) + y
  {
    assert (a + b) + c == a + (b + c);
    assert (a + x) + y == a + (x + y);
  }

  /** One round of fill, as a relation between the values before and after it. */
  ghost predicate Round(f: Block -> Block, chunk: seq<byte>,
                        carry: seq<byte>, iv: Block, hold: seq<byte>, out: seq<byte>,
                        carry': seq<byte>, iv': Block, hold': seq<byte>, out': seq<byte>)
  {
    var data := carry + chunk;
    var usable := WholeBlocks(data);
    var all := hold + Decrypt(f, iv, usable);
    var cut := |all| - HeldBack(|all|);
    && carry' == data[|usable|..]
    && iv' == Chain(iv, usable)
    && hold' == all[cut..]
    && out' == out + all[..cut]
  }

  /** A round keeps the values in step with the ciphertext, which is longer by the chunk. */
  lemma InStepAdvance(f: Block -> Block, iv0: Block, c: seq<byte>, chunk: seq<byte>, released: seq<byte>,
                      carry: seq<byte>, iv: Block, hold: seq<byte>, out: seq<byte>,
                      carry': seq<byte>, iv': Block, hold': seq<byte>, out': seq<byte>)
    requires InStep(f, iv0, c, carry, iv, hold, released + out)
    requires Round(f, chunk, carry, iv, hold, out, carry', iv', hold', out')
    ensures InStep(f, iv0, c + chunk, carry', iv', hold', released + out')
  {
    var data, whole := carry + chunk, WholeBlocks(c);
    var usable := WholeBlocks(data);
    WholeBlocksRest(c);
    WholeBlocksRest(data);
    assert iv == Chain(iv0, whole) && released + out + hold == Decrypt(f, iv0, whole) && |hold| == HeldBack(|whole|);
    hide Decrypt, Chain, WholeBlocks, Aligned, InStep;
    var all := hold + Decrypt(f, iv, usable);
    var cut := |all| - HeldBack(|all|);
    assert all == all[..cut] + all[cut..] && |all[cut..]| == HeldBack(|whole| + |usable|);
    hide HeldBack;
    InStepNext(f, iv0, whole, carry, iv, hold, released + out, chunk, usable, data[|usable|..], all[..cut], all[cut..]);
    assert released + out + all[..cut] == released + out';
  }

  /** No byte is lost or invented by a round. */
  lemma RoundConserves(f: Block -> Block, chunk: seq<byte>,
                       carry: seq<byte>, iv: Block, hold: seq<byte>, out: seq<byte>,
                       carry': seq<byte>, iv': Block, hold': seq<byte>, out': seq<byte>)
    requires Round(f, chunk, carry, iv, hold, out, carry', iv', hold', out')
    ensures |carry'| + |hold'| + |out'| == |carry| + |hold| + |out| + |chunk|
  {
  }

  /** In step means: what was released is exactly what may be released. */
  lemma InStepReleased(f: Block -> Block, iv0: Block, c: seq<byte>,
                       carry: seq<byte>, iv: Block, hold: seq<byte>, released: seq<byte>)
    requires InStep(f, iv0, c, carry, iv, hold, released)
    ensures released == Released(f, iv0, c)
  {
    hide Decrypt, Chain;
    assert released == (released + hold)[..|released|];
  }

  /** Finishing from the held-back tail alone agrees with unpadding the whole plaintext. */
  lemma FinishAgrees(f: Block -> Block, iv0: Block, c: seq<byte>,
                     carry: seq<byte>, iv: Block, hold: seq<byte>, released: seq<byte>)
    requires InStep(f, iv0, c, carry, iv, hold, released)
    ensures Whole(f, iv0, c) ==
              if |carry| != 0 then Err(Misaligned(|carry|))
              else if Unpad(hold, PAD_BLOCK).Err? then Err(BadPadding(Unpad(hold, PAD_BLOCK).error))
              else Ok(released + Unpad(hold, PAD_BLOCK).value)
  {
    hide Decrypt, Chain, Unpad;
    assert |carry| == |c| % BLOCK_SIZE;
    if |carry| == 0 {
      assert WholeBlocks(c) == c;
      UnpadHeldBack(released, hold);
    }
  }

  lemma UnpadHeldBack(released: seq<byte>, hold: seq<byte>)
    requires |hold| == HeldBack(|released + hold|)
    ensures var tail := Unpad(hold, PAD_BLOCK);
            Unpad(released + hold, PAD_BLOCK) ==
              if tail.Ok? then Ok(released + tail.value) else Err(tail.error)
  {
    var p := released + hold;
    assert p[|p| - |hold|..] == hold && p[..|p| - |hold|] == released;
    UnpadTail(p, |hold|, PAD_BLOCK);
  }

  /** What is released stays right however the ciphertext goes on, and 32 bytes of whole blocks are all that is held. */
  lemma ReleasedIsSafe(f: Block -> Block, iv: Block, c: seq<byte>, more: seq<byte>)
    ensures Released(f, iv, c) <= Released(f, iv, c + more)
    ensures var r := Whole(f, iv, c + more); r.Ok? ==> Released(f, iv, c) <= r.value
    ensures |Released(f, iv, c)| == if |c| / 16 * 16 > 32 then |c| / 16 * 16 - 32 else 0
  {
    hide Decrypt, Unpad, WholeBlocks, Aligned;
    var rest := WholeBlocksGrow(c, more);
    DecryptConcat(f, iv, WholeBlocks(c), rest);
    AllButHeld(Decrypt(f, iv, WholeBlocks(c)), Decrypt(f, iv, WholeBlocks(c + more)));
  }

  lemma WholeBlocksGrow(c: seq<byte>, more: seq<byte>) returns (rest: seq<byte>)
    ensures |WholeBlocks(c)| == |c| / 16 * 16
    ensures Aligned(rest) && WholeBlocks(c + more) == WholeBlocks(c) + rest
    ensures Aligned(c + more) ==> WholeBlocks(c + more) == c + more
  {
    var a, b := |WholeBlocks(c)|, |WholeBlocks(c + more)|;
    assert a == |c| / 16 * 16 && b == |c + more| / 16 * 16;
    rest := (c + more)[a..b];
    assert (c + more)[..b] == (c + more)[..a] + rest && (c + more)[..a] == c[..a];
  }

  lemma AllButHeld(p: seq<byte>, q: seq<byte>)
    requires p <= q
    ensures p[..|p| - HeldBack(|p|)] <= q[..|q| - HeldBack(|q|)]
  {
  }

  /** Encrypting padded data and decrypting it as a stream gives the data back, however it is split. */
  lemma EncryptedStreamResult(cipher: Cipher, iv: Block, data: seq<byte>, script: Script, end: nat)
    requires Permutation(cipher)
    requires script(end).status == AtEof && Aligned(Pad(data, PAD_BLOCK))
    requires Consumed(script, end + 1) == Encrypt(cipher.encrypt, iv, Pad(data, PAD_BLOCK))
    ensures FinalResult(cipher.decrypt, iv, script, end) == Ok(data)
  {
    hide Encrypt, Decrypt, Pad, Unpad, Consumed;
    DecryptInvertsEncrypt(cipher, iv, Pad(data, PAD_BLOCK));
    UnpadInvertsPad(data, PAD_BLOCK);
  }

  /** A ciphertext is accepted, with plaintext d, exactly if it encrypts d followed by p copies of some p up to 32. */
  lemma AcceptedCiphertexts(cipher: Cipher, iv: Block, c: seq<byte>, d: seq<byte>)
    requires Permutation(cipher)
    ensures Whole(cipher.decrypt, iv, c) == Ok(d) <==>
            exists p: byte :: 1 <= p <= 32 && EncryptsPadded(cipher, iv, c, d, p)
  {
    hide Encrypt, Decrypt, Unpad, Permutation, Repeat;
    if Whole(cipher.decrypt, iv, c) == Ok(d) {
      var x := Decrypt(cipher.decrypt, iv, c);
      EncryptInvertsDecrypt(cipher, iv, c);
      UnpadAccepts(x, d, PAD_BLOCK);
      var p: byte :| 1 <= p <= PAD_BLOCK && x == d + Repeat(p, p);
      assert EncryptsPadded(cipher, iv, c, d, p);
    }
    forall p: byte | 1 <= p <= PAD_BLOCK && EncryptsPadded(cipher, iv, c, d, p)
      ensures Whole(cipher.decrypt, iv, c) == Ok(d)
    {
      DecryptInvertsEncrypt(cipher, iv, d + Repeat(p, p));
      UnpadAccepts(d + Repeat(p, p), d, PAD_BLOCK);
    }
  }

  /** The errors of the others: what is over beyond whole blocks, or else that of the padding. */
  lemma RejectedCiphertexts(f: Block -> Block, iv: Block, c: seq<byte>)
    ensures forall n :: Whole(f, iv, c) == Err(Misaligned(n)) <==> n == |c| % 16 != 0
    ensures |c| % 16 == 0 ==>
              forall e :: Whole(f, iv, c) == Err(BadPadding(e)) <==> Unpad(Decrypt(f, iv, c), 32) == Err(e)
  {
    hide Decrypt, Unpad;
  }

  predicate EncryptsPadded(cipher: Cipher, iv: Block, c: seq<byte>, d: seq<byte>, p: byte) {
    Aligned(d + Repeat(p, p)) && c == Encrypt(cipher.encrypt, iv, d + Repeat(p, p))
  }
}
