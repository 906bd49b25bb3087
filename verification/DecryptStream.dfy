/**
 The streaming decryptor on its real buffers. `carry` and `hold` are fixed arrays with a length, as
 Go's preallocated slices are: the local `data` of a round lives in the array of `carry`, and `all` in
 the array of `hold`, so the order of decrypting, copying and compacting matters.
 */
module DecryptStream {
  import opened Wrappers
  import opened Bytes
  import opened Cbc
  import opened Padding
  import opened StreamSpec

  const CHUNK := 64 * 1024
  const ROUND := CHUNK + BLOCK_SIZE
  const MAX_PAD_LEN := 32
  // The most that is ever buffered for the caller: one round and an unpadded tail.
  const MAX_OUT := CHUNK + MAX_PAD_LEN - 1

  /** An io.Reader: its n-th Read gives whatever script(n) says. */
  class Source {
    const script: Script
    // From this read on the source honours io.Reader's advice not to return (0, nil).
    ghost const quiet: nat
    var next: nat

    ghost predicate Valid() {
      && (forall i: nat :: |script(i).data| <= CHUNK)
      && (forall i: nat :: quiet <= i ==> script(i).data != [] || script(i).status != More)
    }

    constructor (script: Script, ghost quiet: nat)
      ensures this.script == script && this.quiet == quiet && next == 0
    {
      this.script := script;
      this.quiet := quiet;
      this.next := 0;
    }

    method Read(buf: array<byte>) returns (n: nat, status: Status)
      requires |script(next).data| <= buf.Length
      modifies this, buf
      ensures next == old(next) + 1
      ensures n == |script(old(next)).data| && status == script(old(next)).status
      ensures buf[..n] == script(old(next)).data
    {
      var r := script(next);
      n, status := |r.data|, r.status;
      forall i | 0 <= i < n {
        buf[i] := r.data[i];
      }
      next := next + 1;
    }
  }

  /** Go's copy, also between overlapping stretches of one array. */
  method Copy(dst: array<byte>, at: nat, src: array<byte>, lo: nat, n: nat)
    requires at + n <= dst.Length && lo + n <= src.Length
    modifies dst
    ensures dst[at..at + n] == old(src[lo..lo + n])
    ensures dst[..at] == old(dst[..at]) && dst[at + n..] == old(dst[at + n..])
  {
    forall i | 0 <= i < n {
      dst[at + i] := src[lo + i];
    }
  }

  /** What DecryptReader.Read returns beside the byte count: nil, io.EOF or an error. */
  datatype ReadStatus = Nil | Eof | Failed(error: StreamError)

  class DecryptReader {
    const src: Source
    const mode: Decrypter
    const buf: array<byte>
    const plain: array<byte>
    const carry: array<byte>
    var carryLen: nat
    var hold: array<byte>
    var holdLen: nat
    var out: seq<byte>
    var eof: bool
    var err: Option<StreamError>

    ghost const iv0: Block
    ghost var delivered: seq<byte>

    ghost function Footprint(): set<object>
      reads this
    {
      {this, src, mode, buf, plain, carry, hold}
    }

    /** The buffers are apart, have their one-round capacity, and the residues are bounded. */
    ghost predicate Shape()
      reads this
    {
      && buf != plain && buf != carry && buf != hold && plain != carry && plain != hold && carry != hold
      && buf.Length == CHUNK && plain.Length == ROUND && carry.Length == ROUND
      && hold.Length == (if eof then 0 else ROUND + MAX_PAD_LEN)
      && carryLen < BLOCK_SIZE && holdLen <= MAX_PAD_LEN && holdLen <= hold.Length
    }

    ghost predicate InStepWith(c: seq<byte>)
      requires Shape()
      reads this, mode, carry, hold
    {
      InStep(mode.f, iv0, c, carry[..carryLen], mode.iv, hold[..holdLen], delivered + out)
    }

    predicate Ended()
      reads this
    {
      eof || err.Some?
    }

    /** Until the end the buffers are in step with the bytes read; the end is what the whole stream amounts to. */
    ghost predicate Valid()
      reads this, src, mode, carry, hold
    {
      && Shape() && src.Valid()
      && !(eof && err.Some?)
      && |out| <= MAX_OUT
      && (!eof ==> InStepWith(Consumed(src.script, src.next)))
      && (!Ended() ==> OpenUntil(src.script, src.next))
      && (Ended() ==>
            && src.next > 0 && EndsAt(src.script, src.next - 1)
            && FinalResult(mode.f, iv0, src.script, src.next - 1) ==
                 if eof then Ok(delivered + out) else Err(err.value))
    }

    constructor (src: Source, f: Block -> Block, iv: Block)
      requires src.Valid() && src.next == 0
      ensures Valid() && fresh(Footprint() - {src})
      ensures this.src == src && mode.f == f && iv0 == iv
      ensures delivered == [] && out == [] && !Ended()
      ensures buf.Length == 65_536 && plain.Length == 65_552 && carry.Length == 65_552 && hold.Length == 65_584
    {
      this.src := src;
      mode := new Decrypter(f, iv);
      buf := new byte[CHUNK];
      plain := new byte[ROUND];
      carry := new byte[ROUND];
      carryLen := 0;
      hold := new byte[ROUND + MAX_PAD_LEN];
      holdLen := 0;
      out, eof, err := [], false, None;
      iv0 := iv;
      delivered := [];
      new;
      hide InStep, FinalResult;
      InStepStart(f, iv);
      assert carry[..0] == [] && hold[..0] == [];
    }

    /** Releases all but the last 32 of the len plaintext bytes gathered in the array of hold. */
    method KeepTail(len: nat)
      requires Shape() && !eof && len <= hold.Length
      modifies this`out, this`holdLen, hold
      ensures Shape()
      ensures var all := old(hold[..len]);
              var cut := len - HeldBack(len);
              out == old(out) + all[..cut] && hold[..holdLen] == all[cut..]
    {
      ghost var all := hold[..len];
      if len > MAX_PAD_LEN {
        var cut := len - MAX_PAD_LEN;
        out := out + hold[..cut];
        assert hold[..cut] == all[..cut];
        assert hold[cut..cut + MAX_PAD_LEN] == all[cut..];
        Copy(hold, 0, hold, cut, MAX_PAD_LEN);
        holdLen := MAX_PAD_LEN;
      } else {
        holdLen := len;
        assert all[..0] == [] && out == old(out) + [];
      }
    }

    /** Decrypts carry[..usable], appends the plaintext to hold, and keeps only its tail there. */
    method DecryptUsable(usable: nat)
      requires Shape() && !eof
      requires 0 < usable <= CHUNK && usable % BLOCK_SIZE == 0
      modifies this`out, this`holdLen, mode, plain, hold
      ensures Shape()
      ensures mode.iv == Chain(old(mode.iv), carry[..usable])
      ensures var all := old(hold[..holdLen]) + Decrypt(mode.f, old(mode.iv), carry[..usable]);
              var cut := |all| - HeldBack(|all|);
              out == old(out) + all[..cut] && hold[..holdLen] == all[cut..]
    {
      hide Decrypt, Chain;
      mode.CryptBlocks(plain, carry, usable);
      AppendToHold(usable);
      KeepTail(holdLen + usable);
    }

    /** Puts the plaintext behind what is held back, in the same array. */
    method AppendToHold(usable: nat)
      requires Shape() && !eof && usable <= CHUNK
      modifies hold
      ensures Shape()
      ensures hold[..holdLen + usable] == old(hold[..holdLen]) + plain[..usable]
    {
      Copy(hold, holdLen, plain, 0, usable);
      assert hold[..holdLen + usable] == hold[..holdLen] + hold[holdLen..holdLen + usable];
    }

    /** Decrypts the whole blocks of the first len bytes in the array of carry, if there are any. */
    method DecryptRound(len: nat) returns (usable: nat)
      requires Shape() && !eof && len < ROUND
      modifies this`out, this`holdLen, mode, plain, hold
      ensures Shape() && |out| <= |old(out)| + CHUNK
      ensures usable <= len < usable + BLOCK_SIZE && carry[..usable] == WholeBlocks(carry[..len])
      ensures mode.iv == Chain(old(mode.iv), carry[..usable])
      ensures var all := old(hold[..holdLen]) + Decrypt(mode.f, old(mode.iv), carry[..usable]);
              var cut := |all| - HeldBack(|all|);
              out == old(out) + all[..cut] && hold[..holdLen] == all[cut..]
    {
      usable := len - len % BLOCK_SIZE;
      if usable > 0 {
        DecryptUsable(usable);
      } else {
        assert old(hold[..holdLen]) + [] == hold[..holdLen];
      }
    }

    /** Puts the bytes just read behind the residue; the data of the round is in the array of carry. */
    method AppendToCarry(n: nat) returns (len: nat)
      requires Shape() && n <= CHUNK
      modifies carry
      ensures len == carryLen + n < ROUND
      ensures carry[..len] == old(carry[..carryLen]) + buf[..n]
    {
      Copy(carry, carryLen, buf, 0, n);
      len := carryLen + n;
      assert carry[..len] == carry[..carryLen] + carry[carryLen..len];
    }

    /** What is left of the data behind its whole blocks becomes the new residue, at the front of the same array. */
    method CompactCarry(usable: nat, len: nat)
      requires Shape() && usable <= len < ROUND && len - usable < BLOCK_SIZE
      modifies this`carryLen, carry
      ensures Shape() && carry[..carryLen] == old(carry[..len])[usable..]
    {
      ghost var data := carry[..len];
      assert carry[usable..usable + (len - usable)] == data[usable..];
      Copy(carry, 0, carry, usable, len - usable);
      carryLen := len - usable;
    }

    /** The body of fill's n > 0 branch, buffer by buffer. */
    method RunRound(n: nat)
      requires Shape() && !eof && n <= CHUNK
      modifies this`out, this`holdLen, this`carryLen, mode, plain, carry, hold
      ensures Shape() && |out| <= |old(out)| + CHUNK
      ensures Round(mode.f, buf[..n], old(carry[..carryLen]), old(mode.iv), old(hold[..holdLen]), old(out),
                    carry[..carryLen], mode.iv, hold[..holdLen], out)
    {
      hide Decrypt, Chain, WholeBlocks;
      var len := AppendToCarry(n);
      var usable := DecryptRound(len);
      // The residue moves to the front only now that the blocks in front of it have been decrypted.
      CompactCarry(usable, len);
    }

    method Absorb(n: nat, ghost c: seq<byte>)
      requires Shape() && !eof && InStepWith(c) && n <= CHUNK
      modifies this`out, this`holdLen, this`carryLen, mode, plain, carry, hold
      ensures Shape() && InStepWith(c + buf[..n])
      ensures |out| <= |old(out)| + CHUNK
      ensures carryLen + holdLen + |out| == old(carryLen + holdLen + |out|) + n
    {
      hide InStep, Round;
      RunRound(n);
      InStepAdvance(mode.f, iv0, c, buf[..n], delivered,
                  old(carry[..carryLen]), old(mode.iv), old(hold[..holdLen]), old(out),
                  carry[..carryLen], mode.iv, hold[..holdLen], out);
      RoundConserves(mode.f, buf[..n],
                     old(carry[..carryLen]), old(mode.iv), old(hold[..holdLen]), old(out),
                     carry[..carryLen], mode.iv, hold[..holdLen], out);
    }

    /** At the end of the source: the ciphertext must be aligned and the held-back tail is unpadded. */
    method Finish(ghost c: seq<byte>)
      requires Shape() && !Ended() && InStepWith(c)
      modifies this`out, this`hold, this`holdLen, this`eof, this`err
      ensures Shape() && |out| < |old(out)| + MAX_PAD_LEN
      ensures eof <==> err.None?
      ensures Whole(mode.f, iv0, c) == if eof then Ok(delivered + out) else Err(err.value)
      ensures if eof then fresh(hold) else hold == old(hold) && holdLen == old(holdLen) && out == old(out)
    {
      hide InStep, Whole, Unpad;
      FinishAgrees(mode.f, iv0, c, carry[..carryLen], mode.iv, hold[..holdLen], delivered + out);
      if carryLen != 0 {
        err := Some(Misaligned(carryLen));
        return;
      }
      var tail := Pkcs7Unpad(hold[..holdLen], PAD_BLOCK);
      if tail.Err? {
        err := Some(BadPadding(tail.error));
        return;
      }
      assert (delivered + out) + tail.value == delivered + (out + tail.value);
      out := out + tail.value;
      hold, holdLen := new byte[0], 0;
      eof := true;
    }

    /** The first half of fill: read the source once and run a round on what came. */
    method Pull() returns (status: Status)
      requires Shape() && src.Valid() && !eof && InStepWith(Consumed(src.script, src.next))
      modifies this`out, this`holdLen, this`carryLen, src, mode, buf, plain, carry, hold
      ensures Shape() && InStepWith(Consumed(src.script, src.next))
      ensures src.next == old(src.next) + 1 && status == src.script(old(src.next)).status
      ensures |out| <= |old(out)| + CHUNK
      ensures carryLen + holdLen + |out| ==
                old(carryLen + holdLen + |out|) + |src.script(old(src.next)).data|
    {
      hide InStep;
      ghost var c := Consumed(src.script, src.next);
      var n;
      n, status := src.Read(buf);
      if n > 0 {
        Absorb(n, c);
      } else {
        assert c + [] == c;
      }
    }

    /** Reads the source once, decrypts what came, and then deals with the error that came with it. */
    method Fill()
      requires Valid() && !Ended() && out == []
      modifies Footprint()
      ensures Valid() && fresh(Footprint() - old(Footprint()))
      ensures src.next == old(src.next) + 1 && delivered == old(delivered)
      ensures Ended() <==> src.script(old(src.next)).status != More
      ensures match src.script(old(src.next)).status
              case More => true
              case Broken(code) => !eof && err == Some(SourceFailed(code))
              case AtEof =>
                Whole(mode.f, iv0, Consumed(src.script, src.next)) == if eof then Ok(delivered + out) else Err(err.value)
      ensures !Ended() ==>
                carryLen + holdLen + |out| == old(carryLen + holdLen) + |src.script(old(src.next)).data|
    {
      hide InStep, Whole;
      var status := Pull();
      match status
      case AtEof => Finish(Consumed(src.script, src.next));
      case Broken(code) => err := Some(SourceFailed(code));
      case More =>
    }

    /** Reads the source until there is plaintext to give or the stream has ended. */
    method FillUntilReady()
      requires Valid()
      modifies Footprint()
      ensures Valid() && fresh(Footprint() - old(Footprint())) && delivered == old(delivered)
      ensures out == [] ==> Ended()
      ensures src.next >= old(src.next)
      ensures old(!Ended() && out == []) ==> src.next > old(src.next)
      ensures old(Ended() || out != []) ==>
                out == old(out) && eof == old(eof) && err == old(err) && src.next == old(src.next)
    {
      hide InStepWith, FinalResult, Consumed;
      while out == []
        invariant Valid() && fresh(Footprint() - old(Footprint())) && delivered == old(delivered)
        invariant src.next >= old(src.next)
        invariant old(!Ended() && out == []) && src.next == old(src.next) ==> !Ended() && out == []
        invariant old(Ended() || out != []) ==>
                    out == old(out) && eof == old(eof) && err == old(err) && src.next == old(src.next)
        decreases out == [],
                  if src.next < src.quiet then src.quiet - src.next else 0,
                  !Ended(),
                  BLOCK_SIZE + MAX_PAD_LEN - carryLen - holdLen
      {
        if err.Some? || eof {
          return;
        }
        Fill();
      }
    }

    /** bytes.Buffer.Read on the released plaintext. */
    method Deliver(p: array<byte>) returns (n: nat)
      requires Valid() && p !in Footprint() && out != []
      modifies this`out, this`delivered, p
      ensures Valid()
      ensures n <= p.Length && p[n..] == old(p[n..])
      ensures delivered == old(delivered) + p[..n] && old(out) == p[..n] + out
      ensures n == p.Length || (0 < n && out == [])
    {
      hide InStep, FinalResult, Consumed;
      n := if p.Length < |out| then p.Length else |out|;
      ghost var all, residue, tail := delivered + out, carry[..carryLen], hold[..holdLen];
      forall i | 0 <= i < n {
        p[i] := out[i];
      }
      assert p[..n] == out[..n];
      delivered := delivered + out[..n];
      out := out[n..];
      assert delivered + out == all;
      assert carry[..carryLen] == residue && hold[..holdLen] == tail;
    }

    /**
     Read: n bytes in p and a status. Errors and the end of file are sticky, and reported only after
     all plaintext released before them has been delivered.
     */
    method Read(p: array<byte>) returns (n: nat, status: ReadStatus)
      requires Valid() && p !in Footprint()
      modifies Footprint(), p
      ensures Valid() && fresh(Footprint() - old(Footprint()))
      ensures n <= p.Length && p[n..] == old(p[n..])
      ensures delivered == old(delivered) + p[..n]
      ensures status.Nil? ==> n == p.Length || (0 < n && out == [])
      ensures !status.Nil? ==> n == 0 && out == [] && Ended() && (eof || err.Some?)
      ensures !status.Nil? ==> status == if eof then Eof else Failed(err.value)
      ensures old(Ended()) ==> eof == old(eof) && err == old(err) && src.next == old(src.next)
      ensures old(Ended() && out == []) ==> !status.Nil?
      ensures src.next >= old(src.next)
      ensures old(!Ended() && out == []) ==> src.next > old(src.next)
      ensures old(Ended() || out != []) ==> |out| + n == |old(out)| && src.next == old(src.next)
    {
      hide Valid;
      FillUntilReady();
      if out == [] {
        assert p[..0] == [];
        return 0, if eof then Eof else Failed(err.value);
      }
      n := Deliver(p);
      status := Nil;
    }
  }

  /** A valid reader never asks the source again after the read that ended it. */
  lemma NextBound(r: DecryptReader, end: nat)
    requires r.Valid() && EndsAt(r.src.script, end)
    ensures r.src.next <= end + 1
    ensures r.Ended() ==> r.src.next == end + 1
  {
  }

  /**
   What the reader has delivered once it reports the end: everything, if the source ended with io.EOF and what it gave
   decrypts and unpads; otherwise what was safe before the error, and the error is that of the source or of the
   ciphertext.
   */
  lemma EndedOutcome(r: DecryptReader, end: nat)
    requires r.Valid() && r.Ended() && r.out == [] && EndsAt(r.src.script, end)
    ensures var status, c := r.src.script(end).status, Consumed(r.src.script, end + 1);
            var whole := Whole(r.mode.f, r.iv0, c);
            && (r.err.None? <==> status == AtEof && whole.Ok?)
            && (r.err.None? ==> whole == Ok(r.delivered))
            && (r.err.Some? ==> r.delivered == Released(r.mode.f, r.iv0, c))
            && (status.Broken? ==> r.err == Some(SourceFailed(status.code)))
            && (status == AtEof && whole.Err? ==> r.err == Some(whole.error))
  {
    NextBound(r, end);
    assert r.delivered + [] == r.delivered;
    hide InStep, Whole, Released, Consumed;
    if r.err.Some? {
      InStepReleased(r.mode.f, r.iv0, Consumed(r.src.script, end + 1), r.carry[..r.carryLen], r.mode.iv,
                     r.hold[..r.holdLen], r.delivered);
    }
  }

  /**
   io.ReadAll on the reader, whatever positive buffer sizes it uses: for every way the source splits
   the ciphertext, the result is that of decrypting it whole.
   */
  method ReadAll(r: DecryptReader, sizes: nat -> nat, ghost end: nat)
    returns (plain: seq<byte>, err: Option<StreamError>)
    requires r.Valid() && r.delivered == [] && EndsAt(r.src.script, end)
    requires forall i: nat :: sizes(i) > 0
    modifies r.Footprint()
    ensures var status, c := r.src.script(end).status, Consumed(r.src.script, end + 1);
            var whole := Whole(r.mode.f, r.iv0, c);
            && (err.None? <==> status == AtEof && whole.Ok?)
            && (err.None? ==> whole == Ok(plain))
            && (err.Some? ==> plain == Released(r.mode.f, r.iv0, c))
            && (status.Broken? ==> err == Some(SourceFailed(status.code)))
            && (status == AtEof && whole.Err? ==> err == Some(whole.error))
  {
    hide Whole, Released, Consumed, FinalResult, DecryptReader.InStepWith;
    plain := [];
    var round := 0;
    var status := Nil;
    NextBound(r, end);
    while status.Nil?
      invariant r.Valid() && fresh(r.Footprint() - old(r.Footprint()))
      invariant plain == r.delivered && r.src.next <= end + 1
      invariant !status.Nil? ==> r.Ended() && r.out == [] && status == if r.eof then Eof else Failed(r.err.value)
      decreases status.Nil?, end + 1 - r.src.next, |r.out|
    {
      var p := new byte[sizes(round)];
      var n;
      n, status := r.Read(p);
      plain := plain + p[..n];
      round := round + 1;
      NextBound(r, end);
    }
    EndedOutcome(r, end);
    err := if status.Failed? then Some(status.error) else None;
  }
}
