/** The encrypted callback envelope: 16 random bytes, a big-endian length, the message, the receive id. */
module Envelope {
  import opened Wrappers
  import opened Bytes
  import opened Cbc
  import opened Padding
  import opened Strings
  import opened Media
  import Base64

  const UINT32 := 0x1_0000_0000
  const HEADER := 20

  // ---- The frame ----

  function Be32(n: nat): (b: seq<byte>)
    requires n < UINT32
    ensures |b| == 4
  {
    [n / 0x100_0000, n / 0x1_0000 % 0x100, n / 0x100 % 0x100, n % 0x100]
  }

  function FromBe32(b: seq<byte>): (n: nat)
    requires |b| == 4
    ensures n < UINT32
  {
    b[0] as int * 0x100_0000 + b[1] as int * 0x1_0000 + b[2] as int * 0x100 + b[3]
  }

  lemma FromBe32Inverts(n: nat)
    requires n < UINT32
    ensures FromBe32(Be32(n)) == n
    ensures var b := Be32(n); b[0] as int * 16777216 + b[1] as int * 65536 + b[2] as int * 256 + b[3] == n
  {
    var a, b := n / 0x100, n / 0x1_0000;
    assert a / 0x100 == b && b / 0x100 == n / 0x100_0000;
  }

  lemma Be32Inverts(b: seq<byte>)
    requires |b| == 4
    ensures Be32(FromBe32(b)) == b
  {
    var n := FromBe32(b);
    assert n / 0x100 == b[0] as int * 0x1_0000 + b[1] as int * 0x100 + b[2];
    assert n / 0x1_0000 == b[0] as int * 0x100 + b[1];
  }

  /** uint32(len(msg)): what the length field says of the message. */
  function Announced(msg: seq<byte>): (n: nat)
    ensures n < UINT32 && n <= |msg|
    ensures n == |msg| <==> |msg| < UINT32
  {
    |msg| % UINT32
  }

  /** What gets padded and encrypted. */
  function Layout(random16: Block, n: nat, msg: seq<byte>, tail: seq<byte>): (raw: seq<byte>)
    requires n < UINT32
    ensures |raw| == HEADER + |msg| + |tail|
  {
    random16 + Be32(n) + msg + tail
  }

  datatype Error =
    | BadBase64
    | NotAligned(n: int)
    | Unpadding(error: PadError)
    | PayloadTooShort(n: int)
    | MessageTooLong(n: int)
    | ReceiveIdMismatch

  function ParseFrame(raw: seq<byte>, receiveId: seq<byte>): Result<seq<byte>, Error> {
    if |raw| < HEADER then Err(PayloadTooShort(|raw|)) else
    var msgEnd := HEADER + FromBe32(raw[16..HEADER]);
    if msgEnd > |raw| then Err(MessageTooLong(msgEnd - HEADER))
    else if receiveId != [] && raw[msgEnd..] != receiveId then Err(ReceiveIdMismatch)
    else Ok(raw[HEADER..msgEnd])
  }

  lemma LayoutParts(random16: Block, n: nat, msg: seq<byte>, tail: seq<byte>)
    requires n < UINT32
    ensures var raw := Layout(random16, n, msg, tail);
            raw[16..HEADER] == Be32(n) && raw[HEADER..HEADER + |msg|] == msg && raw[HEADER + |msg|..] == tail
  {
  }

  /** The parser accepts exactly the frames that announce their message, with the expected receive id behind it. */
  lemma ParseAccepts(raw: seq<byte>, receiveId: seq<byte>, msg: seq<byte>)
    ensures ParseFrame(raw, receiveId) == Ok(msg) <==>
            |msg| < UINT32 && exists random16: Block, tail: seq<byte> ::
              raw == random16 + Be32(|msg|) + msg + tail && (receiveId == [] || tail == receiveId)
  {
    hide Be32, FromBe32;
    if ParseFrame(raw, receiveId) == Ok(msg) {
      var random16: Block, tail := raw[..16], raw[HEADER + |msg|..];
      Be32Inverts(raw[16..HEADER]);
      assert raw == random16 + Be32(|msg|) + msg + tail;
    }
    if |msg| < UINT32 {
      forall random16: Block, tail: seq<byte> |
        raw == random16 + Be32(|msg|) + msg + tail && (receiveId == [] || tail == receiveId)
        ensures ParseFrame(raw, receiveId) == Ok(msg)
      {
        LayoutParts(random16, |msg|, msg, tail);
        FromBe32Inverts(|msg|);
      }
    }
  }

  /** The others are rejected as too short, for announcing more than there is, or for the id behind the message. */
  lemma ParseRejects(raw: seq<byte>, receiveId: seq<byte>)
    ensures (exists n :: ParseFrame(raw, receiveId) == Err(PayloadTooShort(n))) <==> |raw| < 20
    ensures |raw| >= 20 ==>
              var n := raw[16] as int * 16777216 + raw[17] as int * 65536 + raw[18] as int * 256 + raw[19];
              && (ParseFrame(raw, receiveId) == Err(MessageTooLong(n)) <==> 20 + n > |raw|)
              && (ParseFrame(raw, receiveId) == Err(ReceiveIdMismatch) <==>
                    20 + n <= |raw| && receiveId != [] && raw[20 + n..] != receiveId)
  {
  }

  /** The length field holds the length modulo 2^32; what it leaves out of a longer message is read as part of the id. */
  lemma ParseOfLayout(random16: Block, msg: seq<byte>, r1: seq<byte>, r2: seq<byte>)
    ensures var n := Announced(msg);
            ParseFrame(Layout(random16, n, msg, r1), r2) ==
              if r2 == [] || msg[n..] + r1 == r2 then Ok(msg[..n]) else Err(ReceiveIdMismatch)
  {
    hide Be32, FromBe32, Announced;
    var n := Announced(msg);
    var raw := Layout(random16, n, msg, r1);
    assert raw == Layout(random16, n, msg[..n], msg[n..] + r1);
    LayoutParts(random16, n, msg[..n], msg[n..] + r1);
    FromBe32Inverts(n);
  }

  // ---- The envelope ----

  /** Encrypt, without the signature. */
  function Seal(c: Cipher, iv: Block, random16: Block, msg: seq<byte>, receiveId: seq<byte>): string {
    var padded := Pad(Layout(random16, Announced(msg), msg, receiveId), PAD_BLOCK);
    PadAligned(Layout(random16, Announced(msg), msg, receiveId));
    Base64.Encode(Cbc.Encrypt(c.encrypt, iv, padded))
  }

  /** Decrypt. */
  function Open(c: Cipher, iv: Block, receiveId: seq<byte>, text: string): Result<seq<byte>, Error> {
    match Base64.Decode(text)
    case None => Err(BadBase64)
    case Some(x) =>
      if !Aligned(x) then Err(NotAligned(|x|)) else
      match Unpad(Cbc.Decrypt(c.decrypt, iv, x), PAD_BLOCK)
      case Err(e) => Err(Unpadding(e))
      case Ok(raw) => ParseFrame(raw, receiveId)
  }

  /**
   The ciphertext in a sealed text is that of the random bytes, the length modulo 2^32, the message and the receive
   id, padded to a multiple of 32; its first block chains the random bytes with the initial value.
   */
  lemma SealedBytes(c: Cipher, iv: Block, random16: Block, msg: seq<byte>, receiveId: seq<byte>)
    ensures var raw := random16 + Be32(|msg| % 0x1_0000_0000) + msg + receiveId;
            var p := 32 - |raw| % 32;
            var padded := raw + Repeat(p, p);
            && |padded| % 32 == 0 && Aligned(padded)
            && var text := Seal(c, iv, random16, msg, receiveId);
            && Base64.Decode(text) == Some(Cbc.Encrypt(c.encrypt, iv, padded))
            && Base64.Decode(text).value[..16] == c.encrypt(XorBlock(random16, iv))
  {
    var raw := random16 + Be32(|msg| % 0x1_0000_0000) + msg + receiveId;
    assert Layout(random16, Announced(msg), msg, receiveId) == raw;
    var p := 32 - |raw| % 32;
    assert Pad(raw, PAD_BLOCK) == raw + Repeat(p, p);
    PadAligned(raw);
    hide Be32, Announced, Layout, Pad, Base64.Decode, Base64.Encode, Cbc.Encrypt;
    Base64.DecodeInvertsEncode(Cbc.Encrypt(c.encrypt, iv, raw + Repeat(p, p)));
    FirstBlock(c, iv, random16, raw + Repeat(p, p));
  }

  lemma FirstBlock(c: Cipher, iv: Block, head: Block, p: seq<byte>)
    requires Aligned(p) && |p| >= 16 && p[..16] == head
    ensures Cbc.Encrypt(c.encrypt, iv, p)[..16] == c.encrypt(XorBlock(head, iv))
  {
    EncryptedBlock(c.encrypt, iv, p, 0);
    hide Cbc.Encrypt;
    assert p[0..16] == head && Cbc.Encrypt(c.encrypt, iv, p)[0..16] == Cbc.Encrypt(c.encrypt, iv, p)[..16];
  }

  /** The outcome of opening a sealed message under any receive id. */
  lemma OpenOfSeal(c: Cipher, iv: Block, random16: Block, msg: seq<byte>, r1: seq<byte>, r2: seq<byte>)
    requires Permutation(c)
    ensures var n := Announced(msg);
            Open(c, iv, r2, Seal(c, iv, random16, msg, r1)) ==
              if r2 == [] || msg[n..] + r1 == r2 then Ok(msg[..n]) else Err(ReceiveIdMismatch)
  {
    hide Announced, Layout, ParseFrame, Pad, Unpad, Base64.Decode, Base64.Encode, Cbc.Encrypt, Cbc.Decrypt, Permutation;
    var raw := Layout(random16, Announced(msg), msg, r1);
    var padded := Pad(raw, PAD_BLOCK);
    PadAligned(raw);
    Base64.DecodeInvertsEncode(Cbc.Encrypt(c.encrypt, iv, padded));
    DecryptInvertsEncrypt(c, iv, padded);
    UnpadInvertsPad(raw, PAD_BLOCK);
    ParseOfLayout(random16, msg, r1, r2);
  }

  /** Round trip: exactly the messages shorter than 4 GiB, opened without or with the same receive id, come back. */
  lemma OpenInvertsSeal(c: Cipher, iv: Block, random16: Block, msg: seq<byte>, r1: seq<byte>, r2: seq<byte>)
    requires Permutation(c)
    ensures Open(c, iv, r2, Seal(c, iv, random16, msg, r1)) == Ok(msg) <==>
            |msg| < UINT32 && (r2 == [] || r1 == r2)
  {
    OpenOfSeal(c, iv, random16, msg, r1, r2);
    hide Announced, Open, Seal, Permutation;
    var n := Announced(msg);
    if |msg| < UINT32 {
      WholeMessage(msg, n, r1);
    } else {
      assert |msg[..n]| < |msg|;
    }
  }

  lemma WholeMessage(msg: seq<byte>, n: nat, r1: seq<byte>)
    requires n == |msg|
    ensures msg[n..] + r1 == r1 && msg[..n] == msg
  {
  }

  /** Some frame of msg, padded with p copies of p and encrypted, is the ciphertext x. */
  ghost predicate IsCiphertextOf(c: Cipher, iv: Block, x: seq<byte>, msg: seq<byte>, receiveId: seq<byte>) {
    |msg| < UINT32 && exists random16: Block, tail: seq<byte>, p: byte ::
      var padded := random16 + Be32(|msg|) + msg + tail + Repeat(p, p);
      && 1 <= p <= 32 && (receiveId == [] || tail == receiveId)
      && Aligned(padded) && x == Cbc.Encrypt(c.encrypt, iv, padded)
  }

  /** Open returns a message exactly for the base64 texts of its ciphertexts. */
  lemma OpenAccepts(c: Cipher, iv: Block, receiveId: seq<byte>, text: string, msg: seq<byte>)
    requires Permutation(c)
    ensures Open(c, iv, receiveId, text) == Ok(msg) <==>
            Base64.Decode(text).Some? && IsCiphertextOf(c, iv, Base64.Decode(text).value, msg, receiveId)
  {
    hide Layout, ParseFrame, Unpad, Base64.Decode, Cbc.Encrypt, Cbc.Decrypt, Permutation, Repeat, IsCiphertextOf;
    if Base64.Decode(text).Some? {
      var x := Base64.Decode(text).value;
      if Open(c, iv, receiveId, text) == Ok(msg) {
        OpenedIsCiphertext(c, iv, x, msg, receiveId);
      }
      if IsCiphertextOf(c, iv, x, msg, receiveId) {
        CiphertextOpens(c, iv, x, msg, receiveId);
      }
    }
  }

  /** The errors of the other texts, in the order in which they are looked for. */
  lemma OpenRejects(c: Cipher, iv: Block, receiveId: seq<byte>, text: string)
    ensures Open(c, iv, receiveId, text) == Err(BadBase64) <==> Base64.Decode(text).None?
    ensures Base64.Decode(text).Some? ==>
              var x := Base64.Decode(text).value;
              && (Open(c, iv, receiveId, text) == Err(NotAligned(|x|)) <==> |x| % 16 != 0)
              && (|x| % 16 == 0 ==>
                    var raw := Unpad(Cbc.Decrypt(c.decrypt, iv, x), 32);
                    && (raw.Err? ==> Open(c, iv, receiveId, text) == Err(Unpadding(raw.error)))
                    && (raw.Ok? ==> Open(c, iv, receiveId, text) == ParseFrame(raw.value, receiveId)))
  {
    hide Base64.Decode, Cbc.Decrypt, Unpad;
    ParseErrors(receiveId);
    hide ParseFrame;
  }

  lemma ParseErrors(receiveId: seq<byte>)
    ensures forall raw :: ParseFrame(raw, receiveId).Err? ==>
              var e := ParseFrame(raw, receiveId).error;
              e.PayloadTooShort? || e.MessageTooLong? || e.ReceiveIdMismatch?
  {
  }

  lemma OpenedIsCiphertext(c: Cipher, iv: Block, x: seq<byte>, msg: seq<byte>, receiveId: seq<byte>)
    requires Permutation(c) && Aligned(x)
    requires var raw := Unpad(Cbc.Decrypt(c.decrypt, iv, x), PAD_BLOCK);
             raw.Ok? && ParseFrame(raw.value, receiveId) == Ok(msg)
    ensures IsCiphertextOf(c, iv, x, msg, receiveId)
  {
    hide Layout, ParseFrame, Unpad, Cbc.Encrypt, Cbc.Decrypt, Permutation, Repeat;
    var padded := Cbc.Decrypt(c.decrypt, iv, x);
    var raw := Unpad(padded, PAD_BLOCK).value;
    EncryptInvertsDecrypt(c, iv, x);
    UnpadAccepts(padded, raw, PAD_BLOCK);
    var p: byte :| 1 <= p <= PAD_BLOCK && padded == raw + Repeat(p, p);
    ParseAccepts(raw, receiveId, msg);
    var random16: Block, tail: seq<byte> :| raw == random16 + Be32(|msg|) + msg + tail
        && (receiveId == [] || tail == receiveId);
    assert padded == random16 + Be32(|msg|) + msg + tail + Repeat(p, p);
  }

  lemma CiphertextOpens(c: Cipher, iv: Block, x: seq<byte>, msg: seq<byte>, receiveId: seq<byte>)
    requires Permutation(c) && IsCiphertextOf(c, iv, x, msg, receiveId)
    ensures Aligned(x)
    ensures var raw := Unpad(Cbc.Decrypt(c.decrypt, iv, x), PAD_BLOCK);
            raw.Ok? && ParseFrame(raw.value, receiveId) == Ok(msg)
  {
    hide Layout, ParseFrame, Unpad, Cbc.Encrypt, Cbc.Decrypt, Permutation, Repeat;
    var random16: Block, tail: seq<byte>, p: byte :|
      var padded := random16 + Be32(|msg|) + msg + tail + Repeat(p, p);
      && 1 <= p <= 32 && (receiveId == [] || tail == receiveId)
      && Aligned(padded) && x == Cbc.Encrypt(c.encrypt, iv, padded);
    var raw := random16 + Be32(|msg|) + msg + tail;
    DecryptInvertsEncrypt(c, iv, raw + Repeat(p, p));
    UnpadAccepts(raw + Repeat(p, p), raw, PAD_BLOCK);
    ParseAccepts(raw, receiveId, msg);
  }

  // ---- The key ----

  datatype ConfigError = NoToken | NoKey | KeyNotBase64 | KeyLength(n: int)

  /** decodeEncodingAESKey */
  function EncodingKey(text: string): Result<Key, ConfigError> {
    var trimmed := TrimSpace(text);
    if trimmed == "" then Err(ConfigError.NoKey) else
    var s := if trimmed[|trimmed| - 1] == '=' then trimmed else trimmed + "=";
    match Base64.Decode(s)
    case None => Err(ConfigError.KeyNotBase64)
    case Some(key) => if |key| != 32 then Err(ConfigError.KeyLength(|key|)) else Ok(key)
  }

  /** The form in which the console hands out keys: 43 letters, whose last two bits mean nothing. */
  predicate ConsoleKey(s: string) {
    |s| == 43 && Base64.AllLetters(s)
  }

  lemma ConsoleKeyDecodes(s: string, pre: string, post: string)
    requires ConsoleKey(s) && Blank(pre) && Blank(post)
    ensures EncodingKey(pre + s + post).Ok?
    ensures Base64.DecodeQuads(s + "=") == Some(EncodingKey(pre + s + post).value)
  {
    hide Base64.DecodeQuads, Base64.SkipLineBreaks;
    forall i | 0 <= i < |s| ensures !IsSpace(s[i]) && !Base64.IsLineBreak(s[i]) && s[i] != '=' {
      assert Base64.IsLetter(s[i]);
    }
    TrimSpaceExact(pre, s, post);
    hide TrimSpace;
    Base64.NothingToSkip(s + "=");
    Base64.OnePadDecodes(s);
  }

  /** Which texts are keys, and the errors for the others. */
  lemma EncodingKeyAccepts(s: string, pre: string, post: string)
    requires Blank(pre) && Blank(post) && (s != "" ==> !IsSpace(s[0]) && !IsSpace(s[|s| - 1]))
    ensures var key := EncodingKey(pre + s + post);
            if s == "" then key == Err(ConfigError.NoKey)
            else match Base64.Decode(if s[|s| - 1] == '=' then s else s + "=")
            case None => key == Err(ConfigError.KeyNotBase64)
            case Some(b) => key == if |b| == 32 then Ok(b) else Err(ConfigError.KeyLength(|b|))
  {
    TrimSpaceExact(pre, s, post);
    hide TrimSpace, Base64.Decode;
  }

  /** A console key with its "=" is the same key. */
  lemma ConsoleKeyPadded(s: string, pre: string, post: string)
    requires ConsoleKey(s) && Blank(pre) && Blank(post)
    ensures EncodingKey(pre + (s + "=") + post) == EncodingKey(pre + s + post)
  {
    hide Base64.Decode;
    assert !IsSpace(s[0]) && !IsSpace(s[42]) by {
      assert Base64.IsLetter(s[0]) && Base64.IsLetter(s[42]);
    }
    assert s[42] != '=' by {
      assert Base64.IsLetter(s[42]);
    }
    EncodingKeyAccepts(s, pre, post);
    EncodingKeyAccepts(s + "=", pre, post);
    hide EncodingKey;
  }

  /** Two console keys are the same key exactly when they differ at most in those two bits. */
  lemma SameConsoleKey(s: string, t: string)
    requires ConsoleKey(s) && ConsoleKey(t)
    ensures EncodingKey(s) == EncodingKey(t) <==>
            s[..42] == t[..42] && Base64.Digit(s[42]) / 4 == Base64.Digit(t[42]) / 4
  {
    hide Base64.DecodeQuads, EncodingKey, Base64.Digit;
    ConsoleKeyDecodes(s, "", "");
    ConsoleKeyDecodes(t, "", "");
    assert "" + s + "" == s && "" + t + "" == t;
    Base64.OnePadSame(s, t);
  }
}
