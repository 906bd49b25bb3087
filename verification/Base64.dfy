/**
 Base64 (section 4 of RFC 4648) as Go's StdEncoding reads and writes it: padding is required,
 carriage returns and newlines are skipped, and the unused bits of a last quantum are not checked
 (section 3.5 of RFC 4648 leaves that to the decoder).
 */
module Base64 {
  import opened Wrappers
  import opened Bytes

  /** The value of a base64 letter, or -1. */
  function Digit(c: char): (d: int)
    ensures -1 <= d < 64
  {
    if 'A' <= c <= 'Z' then c as int - 'A' as int
    else if 'a' <= c <= 'z' then c as int - 'a' as int + 26
    else if '0' <= c <= '9' then c as int - '0' as int + 52
    else if c == '+' then 62
    else if c == '/' then 63
    else -1
  }

  function Letter(d: int): (c: char)
    requires 0 <= d < 64
    ensures Digit(c) == d
  {
    if d < 26 then ('A' as int + d) as char
    else if d < 52 then ('a' as int + (d - 26)) as char
    else if d < 62 then ('0' as int + (d - 52)) as char
    else if d == 62 then '+' else '/'
  }

  predicate IsLetter(c: char) {
    Digit(c) >= 0
  }

  predicate AllLetters(s: string) {
    forall i :: 0 <= i < |s| ==> IsLetter(s[i])
  }

  /** The letters for the first six bits of a byte, the bits between two bytes, and the last six bits. */
  function HighLetter(x: byte): char {
    Letter(x / 4)
  }

  function UpperLetter(x: byte, y: byte): char {
    Letter(x % 4 * 16 + y / 16)
  }

  function LowerLetter(y: byte, z: byte): char {
    Letter(y % 16 * 4 + z / 64)
  }

  function LowLetter(z: byte): char {
    Letter(z % 64)
  }

  function Encode(b: seq<byte>): (s: string)
    ensures |s| % 4 == 0
  {
    if |b| == 0 then []
    else if |b| == 1 then [HighLetter(b[0]), UpperLetter(b[0], 0), '=', '=']
    else if |b| == 2 then [HighLetter(b[0]), UpperLetter(b[0], b[1]), LowerLetter(b[1], 0), '=']
    else
      [HighLetter(b[0]), UpperLetter(b[0], b[1]), LowerLetter(b[1], b[2]), LowLetter(b[2])] + Encode(b[3..])
  }

  function First(d0: int, d1: int): byte
    requires 0 <= d0 < 64 && 0 <= d1 < 64
  {
    d0 * 4 + d1 / 16
  }

  function Second(d1: int, d2: int): byte
    requires 0 <= d1 < 64 && 0 <= d2 < 64
  {
    d1 % 16 * 16 + d2 / 4
  }

  function Third(d2: int, d3: int): byte
    requires 0 <= d2 < 64 && 0 <= d3 < 64
  {
    d2 % 4 * 64 + d3
  }

  /** Decodes text without line breaks, four characters at a time; "=" only in the last quantum. */
  function DecodeQuads(s: string): Option<seq<byte>> {
    if |s| == 0 then Some([])
    else if |s| < 4 || !IsLetter(s[0]) || !IsLetter(s[1]) then None
    else if s[2] == '=' then
      if s[3] == '=' && |s| == 4 then Some([First(Digit(s[0]), Digit(s[1]))]) else None
    else if !IsLetter(s[2]) then None
    else if s[3] == '=' then
      if |s| == 4 then Some([First(Digit(s[0]), Digit(s[1])), Second(Digit(s[1]), Digit(s[2]))]) else None
    else if !IsLetter(s[3]) then None
    else match DecodeQuads(s[4..])
      case None => None
      case Some(rest) => Some(Quantum(s[0], s[1], s[2], s[3]) + rest)
  }

  function Quantum(a: char, b: char, c: char, d: char): (r: seq<byte>)
    requires IsLetter(a) && IsLetter(b) && IsLetter(c) && IsLetter(d)
    ensures |r| == 3
  {
    [First(Digit(a), Digit(b)), Second(Digit(b), Digit(c)), Third(Digit(c), Digit(d))]
  }

  predicate IsLineBreak(c: char) {
    c == '\r' || c == '\n'
  }

  function SkipLineBreaks(s: string): string {
    if |s| == 0 then []
    else if IsLineBreak(s[0]) then SkipLineBreaks(s[1..])
    else [s[0]] + SkipLineBreaks(s[1..])
  }

  /** base64.StdEncoding.DecodeString */
  function Decode(s: string): Option<seq<byte>> {
    DecodeQuads(SkipLineBreaks(s))
  }

  // ---- The encoding, as section 4 of RFC 4648 describes it ----

  /** The alphabet of RFC 4648: four ranges and two signs, in this order, and nothing else is a letter. */
  lemma Alphabet(d: int, c: char)
    requires 0 <= d < 64
    ensures Letter(0) == 'A' && Letter(25) == 'Z' && Letter(26) == 'a' && Letter(51) == 'z'
    ensures Letter(52) == '0' && Letter(61) == '9' && Letter(62) == '+' && Letter(63) == '/'
    ensures d !in {25, 51, 61, 62, 63} ==> Letter(d + 1) as int == Letter(d) as int + 1
    ensures IsLetter(c) <==> exists e :: 0 <= e < 64 && Letter(e) == c
  {
    if IsLetter(c) {
      SameDigit(c, Letter(Digit(c)));
    }
  }

  /** The 24 bits of quantum i as four digits, with "=" for those that hold no bit of b. */
  predicate IsQuantumOf(b: seq<byte>, i: nat, q: string)
    requires 3 * i < |b|
  {
    var x: int := b[3 * i];
    var y: int := if 3 * i + 1 < |b| then b[3 * i + 1] else 0;
    var z: int := if 3 * i + 2 < |b| then b[3 * i + 2] else 0;
    && |q| == 4 && IsLetter(q[0]) && IsLetter(q[1])
    && (if 3 * i + 1 < |b| then IsLetter(q[2]) else q[2] == '=')
    && (if 3 * i + 2 < |b| then IsLetter(q[3]) else q[3] == '=')
    && Sextets(q) == x * 65536 + y * 256 + z
  }

  function Sextets(q: string): int
    requires |q| == 4
  {
    Digit(q[0]) * 262144 + Digit(q[1]) * 4096
    + (if q[2] == '=' then 0 else Digit(q[2]) * 64) + (if q[3] == '=' then 0 else Digit(q[3]))
  }

  /** Every three bytes, the last ones filled up with zeros, become the four digits of their number in base 64. */
  lemma {:induction false} EncodedQuanta(b: seq<byte>, i: nat)
    requires 3 * i < |b|
    ensures |Encode(b)| == (|b| + 2) / 3 * 4
    ensures IsQuantumOf(b, i, Encode(b)[4 * i..4 * i + 4])
    decreases |b|
  {
    hide Encode, Digit, Sextets;
    EncodedLength(b);
    if i == 0 {
      FirstQuantum(b);
    } else {
      EncodedQuanta(b[3..], i - 1);
      LaterQuantum(b, i);
    }
  }

  lemma LaterQuantum(b: seq<byte>, i: nat)
    requires i > 0 && 3 * i < |b|
    requires |Encode(b[3..])| >= 4 * i && IsQuantumOf(b[3..], i - 1, Encode(b[3..])[4 * i - 4..4 * i])
    ensures |Encode(b)| >= 4 * i + 4 && IsQuantumOf(b, i, Encode(b)[4 * i..4 * i + 4])
  {
    hide Encode, IsQuantumOf;
    EncodeCons(b);
    SliceOfRest(Encode(b), 4, 4 * i - 4);
    QuantumShift(b, i, Encode(b)[4 * i..4 * i + 4]);
  }

  lemma SliceOfRest(s: string, k: nat, at: nat)
    requires k + at + 4 <= |s|
    ensures s[k..][at..at + 4] == s[k + at..k + at + 4]
  {
  }

  lemma EncodeCons(b: seq<byte>)
    requires |b| >= 3
    ensures |Encode(b)| == 4 + |Encode(b[3..])| && Encode(b)[4..] == Encode(b[3..])
  {
    hide Letter, Digit;
  }

  lemma QuantumShift(b: seq<byte>, i: nat, q: string)
    requires i > 0 && 3 * i < |b| && IsQuantumOf(b[3..], i - 1, q)
    ensures IsQuantumOf(b, i, q)
  {
    hide Sextets, Digit;
  }

  lemma {:induction false} EncodedLength(b: seq<byte>)
    ensures |Encode(b)| == (|b| + 2) / 3 * 4
  {
    hide Encode;
    if |b| < 3 {
      ShortLength(b);
    } else {
      EncodeCons(b);
      EncodedLength(b[3..]);
    }
  }

  lemma ShortLength(b: seq<byte>)
    requires |b| < 3
    ensures |Encode(b)| == if b == [] then 0 else 4
  {
    hide Letter, Digit;
  }

  lemma FirstQuantum(b: seq<byte>)
    requires b != []
    ensures |Encode(b)| >= 4 && IsQuantumOf(b, 0, Encode(b)[..4])
  {
    hide Letter;
  }

  /** What a quantum decodes to: its 24 bits, of which those that do not fill a byte are lost. */
  predicate DecodesTo(q: string, b: seq<byte>, i: nat)
    requires |q| == 4
  {
    var n := Sextets(q);
    && 3 * i < |b|
    && (if q[2] == '=' then |b| == 3 * i + 1 && b[3 * i] == n / 65536
        else if q[3] == '=' then |b| == 3 * i + 2 && b[3 * i] as int * 256 + b[3 * i + 1] == n / 256
        else 3 * i + 3 <= |b| && b[3 * i] as int * 65536 + b[3 * i + 1] as int * 256 + b[3 * i + 2] == n)
  }

  lemma {:induction false} DecodedQuanta(s: string, i: nat)
    requires DecodeQuads(s).Some? && 4 * i + 4 <= |s|
    ensures DecodesTo(s[4 * i..4 * i + 4], DecodeQuads(s).value, i)
    decreases |s|
  {
    hide Digit, DecodeQuads, Sextets;
    if i == 0 {
      FirstDecoded(s);
    } else {
      DecodeRest(s);
      DecodedQuanta(s[4..], i - 1);
      SliceOfRest(s, 4, 4 * i - 4);
    }
  }

  lemma DecodeRest(s: string)
    requires DecodeQuads(s).Some? && |s| > 4
    ensures DecodeQuads(s[4..]).Some? && |DecodeQuads(s).value| >= 3
    ensures DecodeQuads(s).value[3..] == DecodeQuads(s[4..]).value
  {
    hide Digit, Quantum, First, Second;
  }

  lemma FirstDecoded(s: string)
    requires DecodeQuads(s).Some? && |s| >= 4
    ensures DecodesTo(s[..4], DecodeQuads(s).value, 0)
  {
    hide Digit;
  }

  /** Letters in groups of four, the last of which may end in one or two "=": just this is accepted. */
  lemma {:induction false} DecodeQuadsAccepts(s: string)
    ensures DecodeQuads(s).Some? <==> exists k: nat :: k <= 2 && IsEncodingShape(s, k)
  {
    if |s| < 4 {
      assert s == "" ==> IsEncodingShape(s, 0);
    } else if |s| == 4 {
      OneQuad(s);
    } else {
      hide DecodeQuads, IsEncodingShape, AllLetters;
      DecodeQuadsAccepts(s[4..]);
      MoreQuads(s);
      if DecodeQuads(s).Some? {
        var k: nat :| k <= 2 && IsEncodingShape(s[4..], k);
        ShapeCons(s, k);
      }
      forall k: nat | k <= 2 && IsEncodingShape(s, k) ensures DecodeQuads(s).Some? {
        ShapeCons(s, k);
      }
    }
  }

  predicate IsEncodingShape(s: string, k: nat) {
    |s| % 4 == 0 && k <= |s| && AllLetters(s[..|s| - k]) && s[|s| - k..] == EqualSigns(k)
  }

  lemma MoreQuads(s: string)
    requires |s| > 4
    ensures DecodeQuads(s).Some? <==> AllLetters(s[..4]) && DecodeQuads(s[4..]).Some?
  {
    hide Digit, Quantum, First, Second;
    assert AllLetters(s[..4]) <==> IsLetter(s[0]) && IsLetter(s[1]) && IsLetter(s[2]) && IsLetter(s[3]);
    if AllLetters(s[..4]) {
      hide DecodeQuads;
      QuadsCons(s[0], s[1], s[2], s[3], s[4..]);
      assert s == [s[0], s[1], s[2], s[3]] + s[4..];
    }
  }

  lemma OneQuad(s: string)
    requires |s| == 4
    ensures DecodeQuads(s).Some? <==> exists k: nat :: k <= 2 && IsEncodingShape(s, k)
  {
    assert s[4..] == "";
    if DecodeQuads(s).Some? {
      var k := if s[3] != '=' then 0 else if s[2] != '=' then 1 else 2;
      assert IsEncodingShape(s, k);
    }
    forall k: nat | k <= 2 && IsEncodingShape(s, k) ensures DecodeQuads(s).Some? {
      assert k >= 1 ==> s[3] == s[4 - k..][k - 1];
      assert k == 2 ==> s[2] == s[2..][0];
    }
  }

  lemma ShapeCons(s: string, k: nat)
    requires |s| > 4 && k <= 2
    ensures IsEncodingShape(s, k) <==> AllLetters(s[..4]) && IsEncodingShape(s[4..], k)
  {
    var t := s[4..];
    if |s| % 4 == 0 {
      assert s[..|s| - k] == s[..4] + t[..|t| - k];
      assert s[|s| - k..] == t[|t| - k..];
    }
  }

  // ---- Line breaks ----

  lemma {:induction false} SkipConcat(a: string, b: string)
    ensures SkipLineBreaks(a + b) == SkipLineBreaks(a) + SkipLineBreaks(b)
  {
    if a == "" {
      assert a + b == b;
    } else {
      assert (a + b)[1..] == a[1..] + b;
      SkipConcat(a[1..], b);
    }
  }

  lemma {:induction false} OthersAreKept(s: string, c: char)
    requires c in s && !IsLineBreak(c)
    ensures c in SkipLineBreaks(s)
  {
    if s[0] != c {
      assert c in s[1..];
      OthersAreKept(s[1..], c);
    }
  }

  /** A text with any other character is rejected. */
  lemma ForeignIsRejected(s: string, c: char)
    requires c in s && !IsLetter(c) && c != '=' && c != '\r' && c != '\n'
    ensures Decode(s).None?
  {
    OthersAreKept(s, c);
    var t := SkipLineBreaks(s);
    DecodeQuadsAccepts(t);
    if DecodeQuads(t).Some? {
      var k: nat :| k <= 2 && IsEncodingShape(t, k);
      ShapeCharacter(t, k, c);
    }
  }

  lemma ShapeCharacter(s: string, k: nat, c: char)
    requires IsEncodingShape(s, k) && c in s
    ensures IsLetter(c) || c == '='
  {
    assert s == s[..|s| - k] + s[|s| - k..];
  }

  /** Line breaks may stand anywhere in the text. */
  lemma LineBreaksAreSkipped(a: string, breaks: string, b: string)
    requires forall i :: 0 <= i < |breaks| ==> breaks[i] in "\r\n"
    ensures Decode(a + breaks + b) == Decode(a + b)
  {
    assert forall i :: 0 <= i < |breaks| ==> IsLineBreak(breaks[i]);
    OnlyLineBreaks(breaks);
    assert SkipLineBreaks(a) + "" == SkipLineBreaks(a);
    SkipConcat(a + breaks, b);
    SkipConcat(a, breaks);
    SkipConcat(a, b);
  }

  lemma {:induction false} OnlyLineBreaks(s: string)
    requires forall i :: 0 <= i < |s| ==> IsLineBreak(s[i])
    ensures SkipLineBreaks(s) == ""
  {
    if s == "" {
    } else {
      OnlyLineBreaks(s[1..]);
    }
  }

  lemma {:induction false} NothingToSkip(s: string)
    requires forall i :: 0 <= i < |s| ==> !IsLineBreak(s[i])
    ensures SkipLineBreaks(s) == s
  {
    if |s| == 0 {
    } else {
      NothingToSkip(s[1..]);
    }
  }

  /** Every character of an encoding is a letter or "=", and "=" is only among the last two. */
  lemma {:induction false} EncodeShape(b: seq<byte>)
    ensures forall i :: 0 <= i < |Encode(b)| ==> IsLetter(Encode(b)[i]) || Encode(b)[i] == '='
  {
    if |b| < 3 {
    } else {
      EncodeShape(b[3..]);
    }
  }

  function EqualSigns(n: nat): string {
    seq(n, _ => '=')
  }

  /** The first quantum of an encoding: letters only, and "=" signs behind them if it is the last one. */
  lemma EncodeHead(b: seq<byte>) returns (head: string)
    requires b != []
    ensures AllLetters(head) && |head| == if |b| < 3 then |b| + 1 else 4
    ensures Encode(b) == head + if |b| < 3 then EqualSigns(3 - |b|) else Encode(b[3..])
  {
    hide Letter;
    head := Encode(b)[..if |b| < 3 then |b| + 1 else 4];
  }

  lemma BytesOfDigits(b0: byte, b1: byte, b2: byte)
    ensures First(b0 / 4, b0 % 4 * 16 + b1 / 16) == b0
    ensures Second(b0 % 4 * 16 + b1 / 16, b1 % 16 * 4 + b2 / 64) == b1
    ensures Third(b1 % 16 * 4 + b2 / 64, b2 % 64) == b2
  {
  }

  /** The four digits that three bytes were packed from. */
  function Unpack(q: seq<byte>): (int, int, int, int)
    requires |q| == 3
  {
    (q[0] / 4, q[0] % 4 * 16 + q[1] / 16, q[1] % 16 * 4 + q[2] / 64, q[2] % 64)
  }

  lemma DigitsOfBytes(d0: int, d1: int, d2: int, d3: int)
    requires 0 <= d0 < 64 && 0 <= d1 < 64 && 0 <= d2 < 64 && 0 <= d3 < 64
    ensures First(d0, d1) / 4 == d0
    ensures First(d0, d1) % 4 * 16 + Second(d1, d2) / 16 == d1
    ensures Second(d1, d2) % 16 * 4 + Third(d2, d3) / 64 == d2
    ensures Third(d2, d3) % 64 == d3
  {
  }

  lemma UnpackQuantum(a: char, b: char, c: char, d: char)
    requires IsLetter(a) && IsLetter(b) && IsLetter(c) && IsLetter(d)
    ensures Unpack(Quantum(a, b, c, d)) == (Digit(a), Digit(b), Digit(c), Digit(d))
  {
    DigitsOfBytes(Digit(a), Digit(b), Digit(c), Digit(d));
    hide First, Second, Third, Digit;
  }

  lemma QuadsCons(a: char, b: char, c: char, d: char, rest: string)
    requires IsLetter(a) && IsLetter(b) && IsLetter(c) && IsLetter(d)
    ensures DecodeQuads([a, b, c, d] + rest) ==
              match DecodeQuads(rest)
              case None => None
              case Some(r) => Some(Quantum(a, b, c, d) + r)
  {
  }

  lemma OnePadBytes(a: char, b: char, c: char)
    requires IsLetter(a) && IsLetter(b) && IsLetter(c)
    ensures DecodeQuads([a, b, c] + "=") == Some([First(Digit(a), Digit(b)), Second(Digit(b), Digit(c))])
  {
  }

  lemma TwoPadBytes(a: char, b: char)
    requires IsLetter(a) && IsLetter(b)
    ensures DecodeQuads([a, b] + "==") == Some([First(Digit(a), Digit(b))])
  {
  }

  lemma {:induction false} QuadsInvertEncode(b: seq<byte>)
    ensures DecodeQuads(Encode(b)) == Some(b)
  {
    hide DecodeQuads, First, Second, Third, Letter, Digit;
    if |b| == 1 {
      BytesOfDigits(b[0], 0, 0);
      TwoPadBytes(Letter(b[0] / 4), Letter(b[0] % 4 * 16));
      assert Encode(b) == [Letter(b[0] / 4), Letter(b[0] % 4 * 16)] + "==";
      assert b == [b[0]];
    } else if |b| == 2 {
      BytesOfDigits(b[0], b[1], 0);
      var d1, d2 := b[0] % 4 * 16 + b[1] / 16, b[1] % 16 * 4;
      OnePadBytes(Letter(b[0] / 4), Letter(d1), Letter(d2));
      assert Encode(b) == [Letter(b[0] / 4), Letter(d1), Letter(d2)] + "=";
      assert b == [b[0], b[1]];
    } else if |b| >= 3 {
      QuadsInvertEncode(b[3..]);
      BytesOfDigits(b[0], b[1], b[2]);
      var d1, d2 := b[0] % 4 * 16 + b[1] / 16, b[1] % 16 * 4 + b[2] / 64;
      QuadsCons(Letter(b[0] / 4), Letter(d1), Letter(d2), Letter(b[2] % 64), Encode(b[3..]));
      assert b == [b[0], b[1], b[2]] + b[3..];
    } else {
      QuadsNil();
    }
  }

  lemma QuadsNil()
    ensures DecodeQuads([]) == Some([])
  {
  }

  lemma DecodeInvertsEncode(b: seq<byte>)
    ensures Decode(Encode(b)) == Some(b)
  {
    EncodeShape(b);
    NothingToSkip(Encode(b));
    QuadsInvertEncode(b);
  }

  /** Text of letters and one trailing "=" always decodes: its last two bits are simply dropped. */
  lemma {:induction false} OnePadDecodes(s: string)
    requires AllLetters(s) && |s| % 4 == 3
    ensures DecodeQuads(s + "=").Some? && |DecodeQuads(s + "=").value| == |s| / 4 * 3 + 2
    decreases |s|
  {
    var t := s + "=";
    if |s| == 3 {
    } else {
      assert t[4..] == s[4..] + "=";
      OnePadDecodes(s[4..]);
    }
  }

  lemma QuantumInjective(a: char, b: char, c: char, d: char, a': char, b': char, c': char, d': char)
    requires IsLetter(a) && IsLetter(b) && IsLetter(c) && IsLetter(d)
    requires IsLetter(a') && IsLetter(b') && IsLetter(c') && IsLetter(d')
    requires Quantum(a, b, c, d) == Quantum(a', b', c', d')
    ensures a == a' && b == b' && c == c' && d == d'
  {
    hide Quantum, Unpack, Digit;
    UnpackQuantum(a, b, c, d);
    UnpackQuantum(a', b', c', d');
    SameDigit(a, a');
    SameDigit(b, b');
    SameDigit(c, c');
    SameDigit(d, d');
  }

  lemma SameDigit(x: char, y: char)
    requires IsLetter(x) && Digit(x) == Digit(y)
    ensures x == y
  {
  }

  lemma SameParts<T>(a: seq<T>, b: seq<T>, x: seq<T>, y: seq<T>)
    requires |a| == |b|
    ensures a + x == b + y <==> a == b && x == y
  {
    if a + x == b + y {
      assert a == (a + x)[..|a|] && b == (b + y)[..|b|];
      assert x == (a + x)[|a|..] && y == (b + y)[|b|..];
    }
  }

  /** Two such texts decode to the same bytes exactly when they differ at most in those two bits. */
  lemma {:induction false} OnePadSame(s: string, t: string)
    requires AllLetters(s) && AllLetters(t) && |s| == |t| && |s| % 4 == 3
    ensures DecodeQuads(s + "=") == DecodeQuads(t + "=") <==>
            s[..|s| - 1] == t[..|t| - 1] && Digit(s[|s| - 1]) / 4 == Digit(t[|t| - 1]) / 4
    decreases |s|
  {
    hide DecodeQuads, Digit;
    if |s| == 3 {
      OnePadLast(s[0], s[1], s[2], t[0], t[1], t[2]);
      assert s == [s[0], s[1], s[2]] && t == [t[0], t[1], t[2]];
      assert s[..2] == [s[0], s[1]] && t[..2] == [t[0], t[1]];
    } else {
      OnePadSame(s[4..], t[4..]);
      OnePadStep(s, t);
      SplitInit(s);
      SplitInit(t);
      SameParts(s[..4], t[..4], s[4..][..|s| - 5], t[4..][..|t| - 5]);
    }
  }

  lemma SplitInit(s: string)
    requires |s| > 4
    ensures s[..|s| - 1] == s[..4] + s[4..][..|s| - 5] && s[4..][|s| - 5] == s[|s| - 1]
  {
  }

  lemma OnePadLast(a: char, b: char, c: char, a': char, b': char, c': char)
    requires IsLetter(a) && IsLetter(b) && IsLetter(c) && IsLetter(a') && IsLetter(b') && IsLetter(c')
    ensures DecodeQuads([a, b, c] + "=") == DecodeQuads([a', b', c'] + "=") <==>
            a == a' && b == b' && Digit(c) / 4 == Digit(c') / 4
  {
    hide DecodeQuads, Digit, First, Second;
    OnePadBytes(a, b, c);
    OnePadBytes(a', b', c');
    SamePair(Digit(a), Digit(b), Digit(c), Digit(a'), Digit(b'), Digit(c'));
    SameDigits(a, a');
    SameDigits(b, b');
  }

  lemma SameDigits(x: char, y: char)
    requires IsLetter(x) && IsLetter(y)
    ensures Digit(x) == Digit(y) <==> x == y
  {
  }

  /** Two bytes determine the digits they were made of, up to the last two bits. */
  lemma SamePair(d0: int, d1: int, d2: int, e0: int, e1: int, e2: int)
    requires 0 <= d0 < 64 && 0 <= d1 < 64 && 0 <= d2 < 64 && 0 <= e0 < 64 && 0 <= e1 < 64 && 0 <= e2 < 64
    ensures [First(d0, d1), Second(d1, d2)] == [First(e0, e1), Second(e1, e2)] <==>
            d0 == e0 && d1 == e1 && d2 / 4 == e2 / 4
  {
    DigitsOfBytes(d0, d1, d2, 0);
    DigitsOfBytes(e0, e1, e2, 0);
    assert [First(d0, d1), Second(d1, d2)] == [First(e0, e1), Second(e1, e2)] <==>
           First(d0, d1) == First(e0, e1) && Second(d1, d2) == Second(e1, e2) by {
      assert [First(d0, d1), Second(d1, d2)][0] == First(d0, d1) && [First(d0, d1), Second(d1, d2)][1] == Second(d1, d2);
    }
    assert Second(d1, d2) % 16 == d2 / 4 && Second(e1, e2) % 16 == e2 / 4;
  }

  lemma OnePadStep(s: string, t: string)
    requires AllLetters(s) && AllLetters(t) && |s| == |t| && |s| % 4 == 3 && |s| > 3
    ensures DecodeQuads(s + "=") == DecodeQuads(t + "=") <==>
            s[..4] == t[..4] && DecodeQuads(s[4..] + "=") == DecodeQuads(t[4..] + "=")
  {
    hide DecodeQuads, Quantum, Digit;
    OnePadDecodes(s[4..]);
    OnePadDecodes(t[4..]);
    OnePadQuad(s);
    OnePadQuad(t);
    SameParts(Quantum(s[0], s[1], s[2], s[3]), Quantum(t[0], t[1], t[2], t[3]),
              DecodeQuads(s[4..] + "=").value, DecodeQuads(t[4..] + "=").value);
    if Quantum(s[0], s[1], s[2], s[3]) == Quantum(t[0], t[1], t[2], t[3]) {
      QuantumInjective(s[0], s[1], s[2], s[3], t[0], t[1], t[2], t[3]);
    }
  }

  lemma OnePadQuad(s: string)
    requires AllLetters(s) && |s| > 3 && DecodeQuads(s[4..] + "=").Some?
    ensures DecodeQuads(s + "=") == Some(Quantum(s[0], s[1], s[2], s[3]) + DecodeQuads(s[4..] + "=").value)
    ensures s[..4] == [s[0], s[1], s[2], s[3]]
  {
    hide DecodeQuads, Quantum, Digit;
    QuadsCons(s[0], s[1], s[2], s[3], s[4..] + "=");
    assert s + "=" == [s[0], s[1], s[2], s[3]] + (s[4..] + "=");
  }
}
