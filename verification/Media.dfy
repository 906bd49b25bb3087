/**
 Media decryption entry points: the lenient base64 of media keys, the construction
 of the decrypting reader, and DecryptFile on top of the same reader.
 */
module Media {
  import opened Wrappers
  import opened Bytes
  import opened Cbc
  import opened Padding
  import opened StreamSpec
  import opened DecryptStream
  import opened Strings
  import Base64

  /** strings.ReplaceAll for single characters. */
  function ReplaceAll(s: string, from: char, to: char): (r: string)
    ensures |r| == |s|
  {
    seq(|s|, i requires 0 <= i < |s| => if s[i] == from then to else s[i])
  }

  function Padding4(n: nat): string {
    if n % 4 == 0 then "" else Base64.EqualSigns(4 - n % 4)
  }

  function DecodeLenient(text: string): Option<seq<byte>> {
    var s := ReplaceAll(ReplaceAll(TrimSpace(text), '-', '+'), '_', '/');
    Base64.Decode(s + Padding4(|s|))
  }

  /** An encoding with or without its "=" signs. */
  function Unpadded(s: string): string {
    if |s| > 0 && s[|s| - 1] == '=' then Unpadded(s[..|s| - 1]) else s
  }

  function UrlSafe(s: string): string {
    ReplaceAll(ReplaceAll(s, '+', '-'), '/', '_')
  }

  /** An encoding is a string of letters followed by the "=" signs that its length calls for. */
  lemma {:induction false} EncodingSplit(b: seq<byte>) returns (x: string)
    ensures Base64.Encode(b) == x + Padding4(|x|)
    ensures Base64.AllLetters(x) && (b != [] ==> x != "")
  {
    hide Base64.Digit, Base64.EqualSigns;
    if |b| == 0 {
      x := "";
    } else {
      var head := Base64.EncodeHead(b);
      hide Base64.Encode;
      if |b| < 3 {
        x := head;
      } else {
        var y := EncodingSplit(b[3..]);
        x := head + y;
        SamePadding(head, y);
      }
    }
  }

  lemma SamePadding(head: string, y: string)
    requires |head| == 4
    ensures head + (y + Padding4(|y|)) == (head + y) + Padding4(|head + y|)
  {
  }

  lemma {:induction false} UnpaddedStrips(x: string, k: nat)
    requires x != "" ==> x[|x| - 1] != '='
    ensures Unpadded(x + Base64.EqualSigns(k)) == x
  {
    var s := x + Base64.EqualSigns(k);
    if k == 0 {
      assert s == x;
    } else {
      assert s[..|s| - 1] == x + Base64.EqualSigns(k - 1);
      UnpaddedStrips(x, k - 1);
    }
  }

  /** The last "=" signs of an encoding are all its padding, and re-padding puts them back. */
  lemma RepadEncoding(b: seq<byte>)
    ensures var s := Base64.Encode(b);
            && Unpadded(s) <= s && s == Unpadded(s) + Padding4(|Unpadded(s)|)
            && (b != [] ==> Unpadded(s) != "")
  {
    hide Base64.Encode;
    var x := EncodingSplit(b);
    assert x != "" ==> Base64.IsLetter(x[|x| - 1]);
    UnpaddedStrips(x, |Padding4(|x|)|);
    assert Padding4(|x|) == Base64.EqualSigns(|Padding4(|x|)|);
  }

  /** Undoing the URL-safe alphabet on any prefix of an encoding. */
  lemma StandardAlphabet(b: seq<byte>, v: string, url: bool)
    requires v <= Base64.Encode(b)
    ensures var w := if url then UrlSafe(v) else v;
            && ReplaceAll(ReplaceAll(w, '-', '+'), '_', '/') == v
            && NoSpace(w)
  {
    Base64.EncodeShape(b);
    forall i | 0 <= i < |v| ensures v[i] != '-' && v[i] != '_' && !IsSpace(v[i]) {
      assert v[i] == Base64.Encode(b)[i];
    }
  }

  /** All four encodings of b decode to b: padded or not, either alphabet, amid any white space. */
  lemma LenientDecodes(b: seq<byte>, padded: bool, url: bool, pre: string, post: string)
    requires Blank(pre) && Blank(post)
    ensures var s := Base64.Encode(b);
            var v := if padded then s else Unpadded(s);
            var w := if url then UrlSafe(v) else v;
            DecodeLenient(pre + w + post) == Some(b)
  {
    var s := Base64.Encode(b);
    RepadEncoding(b);
    var v := if padded then s else Unpadded(s);
    StandardAlphabet(b, v, url);
    var w := if url then UrlSafe(v) else v;
    TrimSpaceExact(pre, w, post);
    assert v + Padding4(|v|) == s by {
      assert Padding4(|s|) == "";
    }
    Base64.DecodeInvertsEncode(b);
  }

  /** Apart from white space around it, nothing but letters of the two alphabets, "=" and line breaks is tolerated. */
  lemma LenientRejects(pre: string, s: string, post: string, c: char)
    requires Blank(pre) && Blank(post) && c in s && !IsSpace(s[0]) && !IsSpace(s[|s| - 1])
    requires !Base64.IsLetter(c) && c !in "-_=\r\n"
    ensures DecodeLenient(pre + s + post).None?
  {
    TrimSpaceExact(pre, s, post);
    var i :| 0 <= i < |s| && s[i] == c;
    var t := ReplaceAll(ReplaceAll(s, '-', '+'), '_', '/');
    assert c != '-' && c != '_' && c != '=' && c != '\r' && c != '\n' by {
      assert forall x :: x in ['-', '_', '=', '\r', '\n'] ==> x in "-_=\r\n";
    }
    assert t[i] == c;
    assert c in t + Padding4(|t|);
    Base64.ForeignIsRejected(t + Padding4(|t|), c);
  }

  datatype MediaError =
    | EmptyKey
    | KeyNotBase64
    | KeyLength(n: int)
    | EmptyFile
    | Stream(error: StreamError)

  type Key = k: seq<byte> | |k| == 32 witness seq(32, _ => 0)

  /** AES-256: for every key a block cipher. */
  type Aes = Key -> Cipher

  function MediaKey(aesKey: string): Result<Key, MediaError> {
    if aesKey == "" then Err(EmptyKey) else
    match DecodeLenient(aesKey)
    case None => Err(KeyNotBase64)
    case Some(key) => if |key| != 32 then Err(KeyLength(|key|)) else Ok(key)
  }

  function IvOf(key: Key): Block {
    key[..BLOCK_SIZE]
  }

  /** A media key is 32 bytes, in any base64 that is tolerated. */
  lemma MediaKeyAccepts(text: string)
    ensures MediaKey(text).Ok? <==> text != "" && DecodeLenient(text).Some? && |DecodeLenient(text).value| == 32
    ensures MediaKey(text).Ok? ==> DecodeLenient(text) == Some(MediaKey(text).value)
    ensures MediaKey(text) == Err(EmptyKey) <==> text == ""
    ensures MediaKey(text) == Err(KeyNotBase64) <==> text != "" && DecodeLenient(text).None?
    ensures text != "" && DecodeLenient(text).Some? && |DecodeLenient(text).value| != 32 ==>
              MediaKey(text) == Err(KeyLength(|DecodeLenient(text).value|))
  {
    hide DecodeLenient;
  }

  /** The text of a key in one of its four encodings, amid white space. */
  function KeyText(key: seq<byte>, padded: bool, url: bool, pre: string, post: string): string {
    var s := Base64.Encode(key);
    var v := if padded then s else Unpadded(s);
    pre + (if url then UrlSafe(v) else v) + post
  }

  lemma MediaKeyOfText(key: Key, padded: bool, url: bool, pre: string, post: string)
    requires Blank(pre) && Blank(post)
    ensures MediaKey(KeyText(key, padded, url, pre, post)) == Ok(key)
    ensures |KeyText(key, padded, url, "", "")| == if padded then 44 else 43
  {
    hide DecodeLenient, Base64.Encode, Unpadded;
    LenientDecodes(key, padded, url, pre, post);
    UnpaddedKey(key);
    MediaKeyAccepts(KeyText(key, padded, url, pre, post));
    assert |KeyText(key, padded, url, pre, post)| > 0;
  }

  /** 32 bytes are 43 letters and one "=". */
  lemma UnpaddedKey(key: Key)
    ensures var s := Base64.Encode(key); |s| == 44 && Unpadded(s) == s[..43]
  {
    assert !Base64.IsLetter('=');
    hide Base64.Encode, Base64.Digit, Base64.Sextets;
    Base64.EncodedQuanta(key, 10);
    var s := Base64.Encode(key);
    assert s[42] == s[40..44][2] && s[43] == s[40..44][3];
    assert Unpadded(s[..43]) == s[..43];
  }

  /** newDecryptReader: the key is also where the initial chaining value comes from. */
  method NewDecryptReader(aes: Aes, src: Source, aesKey: string) returns (r: Result<DecryptReader, MediaError>)
    requires src.Valid() && src.next == 0
    ensures r.Ok? <==> MediaKey(aesKey).Ok?
    ensures r.Err? ==> MediaKey(aesKey) == Err(r.error)
    ensures r.Ok? ==>
              var key := MediaKey(aesKey).value;
              && r.value.Valid() && fresh(r.value.Footprint() - {src}) && r.value.src == src
              && r.value.delivered == []
              && r.value.mode.f == aes(key).decrypt && r.value.iv0 == key[..16]
  {
    if aesKey == "" {
      return Err(EmptyKey);
    }
    var decoded := DecodeLenient(aesKey);
    if decoded.None? {
      return Err(KeyNotBase64);
    }
    var key := decoded.value;
    if |key| != 32 {
      return Err(KeyLength(|key|));
    }
    var reader := new DecryptReader(src, aes(key).decrypt, key[..BLOCK_SIZE]);
    return Ok(reader);
  }

  /** bytes.Reader as a source: full chunks, a last short one, then the end of file. */
  function MemoryReads(s: seq<byte>): Script {
    (i: nat) =>
      if i * CHUNK < |s| then SourceRead(s[i * CHUNK..Smaller((i + 1) * CHUNK, |s|)], More)
      else SourceRead([], AtEof)
  }

  function Smaller(a: nat, b: nat): nat {
    if a < b then a else b
  }

  /** What the first n reads give. */
  function Upto(s: seq<byte>, n: nat): seq<byte> {
    s[..Smaller(n * CHUNK, |s|)]
  }

  lemma {:induction false} MemoryConsumed(s: seq<byte>, n: nat)
    ensures Consumed(MemoryReads(s), n) == Upto(s, n)
  {
    if n == 0 {
    } else {
      hide MemoryReads, Upto;
      MemoryConsumed(s, n - 1);
      MemoryStep(s, n - 1);
    }
  }

  lemma MemoryStep(s: seq<byte>, i: nat)
    ensures Upto(s, i) + MemoryReads(s)(i).data == Upto(s, i + 1)
  {
    var start, end := i * CHUNK, (i + 1) * CHUNK;
    assert end == start + CHUNK;
    if start < |s| {
      assert s[..start] + s[start..Smaller(end, |s|)] == s[..Smaller(end, |s|)];
    }
  }

  lemma MemoryChunk(s: seq<byte>, i: nat)
    ensures |MemoryReads(s)(i).data| <= CHUNK
    ensures MemoryReads(s)(i).data != [] || MemoryReads(s)(i).status != More
  {
  }

  /** The number of reads that give data. */
  function ReadsFor(n: nat): (count: nat)
    ensures n <= count * CHUNK
    ensures count > 0 ==> (count - 1) * CHUNK < n
  {
    (n + CHUNK - 1) / CHUNK
  }

  lemma MemoryStatus(s: seq<byte>, i: nat)
    ensures MemoryReads(s)(i).status == if i * CHUNK < |s| then More else AtEof
  {
  }

  lemma UptoAll(s: seq<byte>, n: nat)
    requires |s| <= n * CHUNK
    ensures Upto(s, n) == s
  {
  }

  lemma MemoryEnd(s: seq<byte>) returns (end: nat)
    ensures EndsAt(MemoryReads(s), end) && MemoryReads(s)(end).status == AtEof
    ensures Consumed(MemoryReads(s), end + 1) == s
  {
    hide ReadsFor, Consumed, MemoryReads, Upto;
    end := ReadsFor(|s|);
    MemoryConsumed(s, end + 1);
    UptoAll(s, end + 1);
    MemoryStatus(s, end);
    forall i: nat | i < end ensures MemoryReads(s)(i).status == More {
      MemoryStatus(s, i);
    }
  }

  /** A plaintext and an error beside it: after an error the plaintext is what had been released before. */
  datatype Decrypted = Decrypted(plain: seq<byte>, error: Option<MediaError>)

  function DecryptedFile(aes: Aes, encrypted: seq<byte>, aesKey: string): Decrypted {
    if |encrypted| == 0 then Decrypted([], Some(EmptyFile)) else
    match MediaKey(aesKey)
    case Err(e) => Decrypted([], Some(e))
    case Ok(key) =>
      match Whole(aes(key).decrypt, IvOf(key), encrypted)
      case Ok(p) => Decrypted(p, None)
      case Err(e) => Decrypted(Released(aes(key).decrypt, IvOf(key), encrypted), Some(Stream(e)))
  }

  lemma FileOutcome(aes: Aes, encrypted: seq<byte>, aesKey: string, end: nat,
                    plain: seq<byte>, err: Option<StreamError>)
    requires encrypted != [] && MediaKey(aesKey).Ok?
    requires EndsAt(MemoryReads(encrypted), end) && MemoryReads(encrypted)(end).status == AtEof
    requires Consumed(MemoryReads(encrypted), end + 1) == encrypted
    requires var key := MediaKey(aesKey).value;
             var whole := Whole(aes(key).decrypt, key[..16], encrypted);
             && (err.None? <==> whole.Ok?) && (err.None? ==> whole == Ok(plain))
             && (err.Some? ==> err == Some(whole.error) && plain == Released(aes(key).decrypt, key[..16], encrypted))
    ensures DecryptedFile(aes, encrypted, aesKey) ==
              Decrypted(plain, if err.Some? then Some(Stream(err.value)) else None)
  {
    hide MemoryReads, Consumed, Whole, MediaKey, Released;
  }

  /** bytes.NewReader */
  method NewMemorySource(s: seq<byte>) returns (src: Source, ghost end: nat)
    ensures fresh(src) && src.Valid() && src.next == 0 && src.script == MemoryReads(s)
    ensures EndsAt(MemoryReads(s), end) && MemoryReads(s)(end).status == AtEof
    ensures Consumed(MemoryReads(s), end + 1) == s
  {
    end := MemoryEnd(s);
    forall i: nat
      ensures |MemoryReads(s)(i).data| <= CHUNK
      ensures MemoryReads(s)(i).data != [] || MemoryReads(s)(i).status != More
    {
      MemoryChunk(s, i);
    }
    hide MemoryReads, Consumed;
    src := new Source(MemoryReads(s), 0);
  }

  lemma KeyFails(aes: Aes, encrypted: seq<byte>, aesKey: string)
    requires encrypted != [] && MediaKey(aesKey).Err?
    ensures DecryptedFile(aes, encrypted, aesKey) == Decrypted([], Some(MediaKey(aesKey).error))
  {
  }

  /** DecryptFile goes through the streaming reader, and amounts to decrypting the buffer whole. */
  method DecryptFile(aes: Aes, encrypted: seq<byte>, aesKey: string, sizes: nat -> nat)
    returns (r: Decrypted)
    requires forall i: nat :: sizes(i) > 0
    ensures r == DecryptedFile(aes, encrypted, aesKey)
    ensures encrypted == [] <==> r.error == Some(EmptyFile)
    ensures encrypted != [] && MediaKey(aesKey).Err? ==> r == Decrypted([], Some(MediaKey(aesKey).error))
    ensures encrypted != [] && MediaKey(aesKey).Ok? ==>
              var key := MediaKey(aesKey).value;
              var whole := Whole(aes(key).decrypt, key[..16], encrypted);
              && (whole.Ok? ==> r == Decrypted(whole.value, None))
              && (whole.Err? ==> r == Decrypted(Released(aes(key).decrypt, key[..16], encrypted),
                                                Some(Stream(whole.error))))
  {
    if |encrypted| == 0 {
      return Decrypted([], Some(EmptyFile));
    }
    hide MemoryReads, DecryptReader.Valid, DecryptedFile, MediaKey, Consumed;
    var src, end := NewMemorySource(encrypted);
    var reader := NewDecryptReader(aes, src, aesKey);
    if reader.Err? {
      KeyFails(aes, encrypted, aesKey);
      return Decrypted([], Some(reader.error));
    }
    var plain, err := ReadAll(reader.value, sizes, end);
    FileOutcome(aes, encrypted, aesKey, end, plain, err);
    return Decrypted(plain, if err.Some? then Some(Stream(err.value)) else None);
  }

  /** What was padded and encrypted under a media key comes back from DecryptFile, in whichever form the key comes. */
  lemma DecryptFileInvertsEncrypt(aes: Aes, key: Key, data: seq<byte>,
                                  padded: bool, url: bool, pre: string, post: string)
    requires Permutation(aes(key)) && Blank(pre) && Blank(post)
    ensures Aligned(Pad(data, PAD_BLOCK))
    ensures var encrypted := Encrypt(aes(key).encrypt, key[..16], Pad(data, PAD_BLOCK));
            DecryptedFile(aes, encrypted, KeyText(key, padded, url, pre, post)) == Decrypted(data, None)
  {
    hide MediaKey, KeyText, Encrypt, Decrypt, Pad, Unpad;
    MediaKeyOfText(key, padded, url, pre, post);
    PadAligned(data);
    assert |Pad(data, PAD_BLOCK)| > 0 by { PadIsNotEmpty(data); }
    DecryptInvertsEncrypt(aes(key), IvOf(key), Pad(data, PAD_BLOCK));
    UnpadInvertsPad(data, PAD_BLOCK);
  }

  lemma PadIsNotEmpty(data: seq<byte>)
    ensures |Pad(data, PAD_BLOCK)| > |data|
  {
  }
}
