/** WecomCrypto and the encrypted webhook built on it. */
module Callbacks {
  import opened Wrappers
  import opened Bytes
  import opened Cbc
  import opened Padding
  import opened Envelope
  import opened Signature
  import opened Decimal
  import opened Integers
  import opened Media
  import Base64

  datatype EncryptedMessage = EncryptedMessage(encrypt: string, signature: string)

  datatype WecomCrypto = WecomCrypto(token: string, aesKey: Key, receiveId: seq<byte>) {
    /** Encrypt; the random bytes are drawn by the caller, and None if they cannot be had. */
    method Encrypt(aes: Aes, digest: Digest, random16: Option<Block>, plain: seq<byte>, timestamp: string, nonce: string)
      returns (out: Option<EncryptedMessage>)
      ensures out.Some? <==> random16.Some?
      ensures out.Some? ==>
                && out.value.encrypt == Seal(aes(aesKey), aesKey[..16], random16.value, plain, receiveId)
                && out.value.signature == ComputeSignature(digest, token, timestamp, nonce, out.value.encrypt)
    {
      if random16.None? {
        return None;
      }
      var msgLen := Be32(|plain| % UINT32);
      var raw := random16.value + msgLen + plain + receiveId;
      assert raw == Layout(random16.value, Announced(plain), plain, receiveId);
      hide Layout, Pad, Cbc.Encrypt, Announced;
      var padded := Pkcs7Pad(raw, PAD_BLOCK);
      PadAligned(raw);
      var src := new byte[|padded|](i requires 0 <= i < |padded| => padded[i]);
      assert src[..] == padded;
      var encrypted := new byte[|padded|];
      var mode := new Encrypter(aes(aesKey).encrypt, IvOf(aesKey));
      mode.CryptBlocks(encrypted, src);
      var text := Base64.Encode(encrypted[..]);
      out := Some(EncryptedMessage(text, ComputeSignature(digest, token, timestamp, nonce, text)));
    }

    method Decrypt(aes: Aes, text: string) returns (r: Result<seq<byte>, Error>)
      ensures r == Open(aes(aesKey), aesKey[..16], receiveId, text)
    {
      hide Cbc.Decrypt, Unpad, Base64.Decode;
      var encrypted := Base64.Decode(text);
      if encrypted.None? {
        return Err(BadBase64);
      }
      var n := |encrypted.value|;
      if n % BLOCK_SIZE != 0 {
        return Err(NotAligned(n));
      }
      var src := new byte[n](i requires 0 <= i < n => encrypted.value[i]);
      assert src[..] == encrypted.value && src[..n] == src[..];
      var decrypted := new byte[n];
      var mode := new Decrypter(aes(aesKey).decrypt, IvOf(aesKey));
      mode.CryptBlocks(decrypted, src, n);
      assert decrypted[..] == decrypted[..n];
      var unpadded := Pkcs7Unpad(decrypted[..], PAD_BLOCK);
      if unpadded.Err? {
        return Err(Unpadding(unpadded.error));
      }
      var raw := unpadded.value;
      if |raw| < HEADER {
        return Err(PayloadTooShort(|raw|));
      }
      var msgLen := FromBe32(raw[16..HEADER]);
      var msgEnd := HEADER + msgLen;
      if msgEnd > |raw| {
        return Err(MessageTooLong(msgLen));
      }
      if receiveId != [] && raw[msgEnd..] != receiveId {
        return Err(ReceiveIdMismatch);
      }
      return Ok(raw[HEADER..msgEnd]);
    }
  }

  function NewWecomCrypto(token: string, encodingAesKey: string, receiveId: seq<byte>): Result<WecomCrypto, ConfigError> {
    if token == "" then Err(NoToken) else
    match EncodingKey(encodingAesKey)
    case Err(e) => Err(e)
    case Ok(key) => Ok(WecomCrypto(token, key, receiveId))
  }

  lemma NewWecomCryptoKeeps(token: string, encodingAesKey: string, receiveId: seq<byte>)
    ensures var r := NewWecomCrypto(token, encodingAesKey, receiveId);
            && (r.Ok? <==> token != "" && EncodingKey(encodingAesKey).Ok?)
            && (r.Ok? ==> r.value == WecomCrypto(token, EncodingKey(encodingAesKey).value, receiveId))
            && (r == Err(NoToken) <==> token == "")
            && (token != "" && EncodingKey(encodingAesKey).Err? ==> r == Err(EncodingKey(encodingAesKey).error))
  {
    hide Base64.Decode;
  }

  /**
   Two sides configured with console keys that differ at most in the meaningless bits: what one encrypts the other
   decrypts exactly if it is shorter than 4 GiB and the receive id is not checked or the same.
   */
  lemma ConfiguredRoundTrip(aes: Aes, token1: string, key1: string, r1: seq<byte>,
                            token2: string, key2: string, r2: seq<byte>, random16: Block, msg: seq<byte>)
    requires token1 != "" && token2 != "" && ConsoleKey(key1) && ConsoleKey(key2)
    requires key1[..42] == key2[..42] && Base64.Digit(key1[42]) / 4 == Base64.Digit(key2[42]) / 4
    requires forall key: Key :: Permutation(aes(key))
    ensures NewWecomCrypto("", key1, r1) == Err(NoToken)
    ensures NewWecomCrypto(token1, key1, r1).Ok? && NewWecomCrypto(token2, key2, r2).Ok?
    ensures var a, b := NewWecomCrypto(token1, key1, r1).value, NewWecomCrypto(token2, key2, r2).value;
            && a.token == token1 && a.receiveId == r1 && b.token == token2 && b.receiveId == r2 && a.aesKey == b.aesKey
    ensures var a, b := NewWecomCrypto(token1, key1, r1).value, NewWecomCrypto(token2, key2, r2).value;
            var text := Seal(aes(a.aesKey), a.aesKey[..16], random16, msg, a.receiveId);
            Open(aes(b.aesKey), b.aesKey[..16], b.receiveId, text) == Ok(msg)
            <==> |msg| < UINT32 && (r2 == [] || r1 == r2)
  {
    hide Open, Seal, Permutation, EncodingKey, Base64.Digit, ConsoleKey, NewWecomCrypto;
    NewWecomCryptoKeeps("", key1, r1);
    NewWecomCryptoKeeps(token1, key1, r1);
    NewWecomCryptoKeeps(token2, key2, r2);
    SameConsoleKey(key1, key2);
    ConsoleKeyDecodes(key1, "", "");
    assert "" + key1 + "" == key1;
    var key := EncodingKey(key1).value;
    OpenInvertsSeal(aes(key), IvOf(key), random16, msg, r1, r2);
  }

  // ---- The encrypted webhook ----

  method FirstNonEmpty(values: seq<string>) returns (r: string)
    ensures r == "" ==> forall k :: 0 <= k < |values| ==> values[k] == ""
    ensures r != "" ==> exists k :: 0 <= k < |values| && values[k] == r && forall j :: 0 <= j < k ==> values[j] == ""
  {
    for k := 0 to |values|
      invariant forall j :: 0 <= j < k ==> values[j] == ""
    {
      if values[k] != "" {
        return values[k];
      }
    }
    return "";
  }

  /** responseTimestamp: the timestamp of the request if it is one, else the time of day. */
  function ResponseTimestamp(value: string, now: int): int {
    match ParseInt(value)
    case Some(n) => n
    case None => now
  }

  /** The reply carries the timestamp of the request whenever that is an int64, and otherwise the time of day. */
  lemma TimestampEchoed(n: int, now: int)
    ensures ResponseTimestamp(FormatInt(n), now) == if Int64(n) then n else now
    ensures forall value :: ParseInt(value).None? ==> ResponseTimestamp(value, now) == now
  {
    hide ParseInt, FormatInt;
    ParseFormat(n);
  }

  /** The parsed query and body of a callback; encrypt is empty if the body is not what it should be. */
  datatype Request = Request(encrypt: string, msgSignature: string, signature: string, timestamp: string, nonce: string)

  /** What ParseMessage, the business handler and the encoding of its answer make of a message. */
  datatype Handled = NotAMessage | HandlerFailed | NoReply | NotEncodable | Answer(body: seq<byte>)

  datatype Response =
    | InvalidPayload
    | InvalidSignature
    | DecryptFailed
    | Plain(handled: Handled)
    | EncryptFailed
    | Reply(message: EncryptedMessage, timestamp: int, nonce: string)

  /**
   handleEncryptedMessage: nothing is decrypted before the signature has been checked, nothing is handled before
   it has been decrypted, and the reply is sealed and signed with what the request brought.
   */
  method HandleEncryptedMessage(crypto: WecomCrypto, aes: Aes, digest: Digest, req: Request,
                                handler: seq<byte> -> Handled, now: int, newNonce: string,
                                random16: Option<Block>)
    returns (resp: Response)
    ensures resp == InvalidPayload <==> req.encrypt == ""
    ensures resp == InvalidSignature <==>
              && req.encrypt != ""
              && !IsSignatureOf(digest, if req.msgSignature != "" then req.msgSignature else req.signature,
                               crypto.token, req.timestamp, req.nonce, req.encrypt)
    ensures var plain := Open(aes(crypto.aesKey), crypto.aesKey[..16], crypto.receiveId, req.encrypt);
            resp != InvalidPayload && resp != InvalidSignature ==>
              && (resp == DecryptFailed <==> plain.Err?)
              && (resp.Plain? <==> plain.Ok? && !handler(plain.value).Answer?)
              && (resp.Plain? ==> resp.handled == handler(plain.value))
              && (resp.EncryptFailed? <==> plain.Ok? && handler(plain.value).Answer? && random16.None?)
              && (resp.Reply? <==> plain.Ok? && handler(plain.value).Answer? && random16.Some?)
              && (resp.Reply? ==>
                    SealedReply(crypto, aes, digest, resp, random16.value, handler(plain.value).body))
    ensures resp.Reply? ==>
              && resp.timestamp == ResponseTimestamp(req.timestamp, now)
              && resp.nonce == (if req.nonce != "" then req.nonce else newNonce)
              && IsSignatureOf(digest, resp.message.signature, crypto.token, FormatInt(resp.timestamp), resp.nonce,
                              resp.message.encrypt)
  {
    hide ComputeSignature, Open, Seal, Arranged, Sorted, VerifySignature, FormatInt, ResponseTimestamp, SealedReply;
    IsArranged(crypto.token, req.timestamp, req.nonce, req.encrypt);
    if req.encrypt == "" {
      return InvalidPayload;
    }
    var signature := FirstNonEmpty([req.msgSignature, req.signature]);
    assert signature == if req.msgSignature != "" then req.msgSignature else req.signature by {
      assert [req.msgSignature, req.signature][0] == req.msgSignature
          && [req.msgSignature, req.signature][1] == req.signature;
    }
    VerifierIsExact(digest, crypto.token, signature, req.timestamp, req.nonce, req.encrypt);
    if !VerifySignature(digest, crypto.token, signature, req.timestamp, req.nonce, req.encrypt) {
      return InvalidSignature;
    }
    var plain := crypto.Decrypt(aes, req.encrypt);
    if plain.Err? {
      return DecryptFailed;
    }
    var handled := handler(plain.value);
    if !handled.Answer? {
      return Plain(handled);
    }
    var timestamp := ResponseTimestamp(req.timestamp, now);
    var nonce := if req.nonce != "" then req.nonce else newNonce;
    resp := SealAnswer(crypto, aes, digest, random16, handled.body, timestamp, nonce);
  }

  /** The end of handleEncryptedMessage. */
  method SealAnswer(crypto: WecomCrypto, aes: Aes, digest: Digest, random16: Option<Block>, body: seq<byte>,
                    timestamp: int, nonce: string)
    returns (resp: Response)
    ensures if random16.None? then resp == EncryptFailed
            else
              && resp.Reply? && resp.timestamp == timestamp && resp.nonce == nonce
              && SealedReply(crypto, aes, digest, resp, random16.value, body)
              && IsSignatureOf(digest, resp.message.signature, crypto.token, FormatInt(timestamp), nonce,
                              resp.message.encrypt)
  {
    hide ComputeSignature, Seal, Permuted, Ordered, Sorted, FormatInt;
    var message := crypto.Encrypt(aes, digest, random16, body, FormatInt(timestamp), nonce);
    if message.None? {
      return EncryptFailed;
    }
    resp := Reply(message.value, timestamp, nonce);
    forall parts | Arranged(parts, crypto.token, FormatInt(timestamp), nonce, resp.message.encrypt)
      ensures resp.message.signature == digest(parts[0] + parts[1] + parts[2] + parts[3])
    {
      SignatureOfAnyOrder(digest, crypto.token, FormatInt(timestamp), nonce, resp.message.encrypt, parts);
    }
  }

  /** The body, sealed, and signed with the timestamp and nonce that go with it. */
  predicate SealedReply(crypto: WecomCrypto, aes: Aes, digest: Digest, resp: Response, random16: Block, body: seq<byte>)
    requires resp.Reply?
  {
    && resp.message.encrypt == Seal(aes(crypto.aesKey), crypto.aesKey[..16], random16, body, crypto.receiveId)
    && resp.message.signature ==
         ComputeSignature(digest, crypto.token, FormatInt(resp.timestamp), resp.nonce, resp.message.encrypt)
  }

  /**
   The other side accepts a reply by either verifier, and reads the body in it exactly when it is shorter
   than 4 GiB.
  */
  lemma ReplyIsReadable(crypto: WecomCrypto, aes: Aes, digest: Digest, resp: Response, random16: Block, body: seq<byte>)
    requires Permutation(aes(crypto.aesKey)) && resp.Reply?
    requires SealedReply(crypto, aes, digest, resp, random16, body)
    ensures VerifySignature(digest, crypto.token, resp.message.signature, FormatInt(resp.timestamp), resp.nonce,
            resp.message.encrypt)
    ensures VerifyWebhookSignature(digest, WebhookSignature(crypto.token, FormatInt(resp.timestamp), resp.nonce,
                                                            resp.message.encrypt, resp.message.signature))
    ensures Open(aes(crypto.aesKey), crypto.aesKey[..16], crypto.receiveId, resp.message.encrypt) == Ok(body)
            <==> |body| < UINT32
  {
    hide Open, Seal, Permutation, Sorted, Joined, FormatInt;
    OpenInvertsSeal(aes(crypto.aesKey), IvOf(crypto.aesKey), random16, body, crypto.receiveId, crypto.receiveId);
  }
}
