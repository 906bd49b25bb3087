/** strconv.FormatInt and strconv.ParseInt in base 10 for 64-bit integers. */
module Decimal {
  import opened Wrappers
  import opened Integers

  function DigitChar(d: nat): (c: char)
    requires d < 10
  {
    ('0' as int + d) as char
  }

  predicate IsDigit(c: char) {
    '0' <= c <= '9'
  }

  function DigitValue(c: char): (d: nat)
    requires IsDigit(c)
    ensures d < 10
  {
    c as int - '0' as int
  }

  function Digits(n: nat): string {
    if n < 10 then [DigitChar(n)] else Digits(n / 10) + [DigitChar(n % 10)]
  }

  function FormatInt(n: int): string {
    if n < 0 then "-" + Digits(-n) else Digits(n)
  }

  /** The value of a non-empty string of digits. */
  function ParseDigits(s: string): Option<nat> {
    if s == "" || !IsDigit(s[|s| - 1]) then None else
    var last := DigitValue(s[|s| - 1]);
    if |s| == 1 then Some(last) else
    match ParseDigits(s[..|s| - 1])
    case None => None
    case Some(n) => Some(10 * n + last)
  }

  function ParseInt(s: string): Option<int> {
    if s == "" then None else
    var negative := s[0] == '-';
    match ParseDigits(if s[0] == '+' || s[0] == '-' then s[1..] else s)
    case None => None
    case Some(n) =>
      var value: int := if negative then -(n as int) else n;
      if Int64(value) then Some(value) else None
  }

  predicate AllDigits(s: string) {
    forall i :: 0 <= i < |s| ==> IsDigit(s[i])
  }

  /** Exactly the non-empty strings of digits have a value. */
  lemma {:induction false} ParseDigitsAccepts(s: string)
    ensures ParseDigits(s).Some? <==> s != "" && AllDigits(s)
  {
    if |s| <= 1 {
    } else {
      ParseDigitsAccepts(s[..|s| - 1]);
    }
  }

  /** One more digit behind a number. */
  lemma {:induction false} ParseDigitsSnoc(s: string, d: nat)
    requires s != "" && AllDigits(s) && d < 10
    ensures ParseDigits(s).Some?
    ensures ParseDigits(s + ["0123456789"[d]]) == Some(10 * ParseDigits(s).value + d)
  {
    ParseDigitsAccepts(s);
    assert (s + ["0123456789"[d]])[..|s|] == s;
  }

  /** An optional sign and digits are read as their value if that is an int64; nothing else is accepted. */
  lemma ParseIntAccepts(s: string)
    ensures var digits := if s != "" && (s[0] == '+' || s[0] == '-') then s[1..] else s;
            if digits != "" && AllDigits(digits) && ParseDigits(digits).Some? then
              var value: int := ParseDigits(digits).value;
              var n := if s[0] == '-' then -value else value;
              ParseInt(s) == if Int64(n) then Some(n) else None
            else ParseInt(s).None?
  {
    ParseDigitsAccepts(if s != "" && (s[0] == '+' || s[0] == '-') then s[1..] else s);
    hide ParseDigits;
  }

  lemma {:induction false} ParseInvertsDigits(n: nat)
    ensures ParseDigits(Digits(n)) == Some(n)
    ensures |Digits(n)| > 0 && forall i :: 0 <= i < |Digits(n)| ==> IsDigit(Digits(n)[i])
  {
    if n < 10 {
    } else {
      ParseInvertsDigits(n / 10);
      var s := Digits(n);
      assert s[..|s| - 1] == Digits(n / 10);
    }
  }

  /** The decimal form of an integer is read back exactly if it is an int64. */
  lemma ParseFormat(n: int)
    ensures ParseInt(FormatInt(n)) == if Int64(n) then Some(n) else None
  {
    ParseInvertsDigits(if n < 0 then -n else n);
    hide Digits, ParseDigits;
    if n < 0 {
      assert FormatInt(n)[1..] == Digits(-n);
    } else {
      assert IsDigit(FormatInt(n)[0]);
    }
  }

  /** The decimal form: a sign if it is negative, and digits, the first of which is zero only for zero itself. */
  lemma FormatCanonical(n: int)
    ensures var digits := if n < 0 then FormatInt(n)[1..] else FormatInt(n);
            && (n < 0 ==> FormatInt(n)[0] == '-')
            && digits != "" && AllDigits(digits) && (digits[0] == '0' ==> digits == "0")
  {
    var k := if n < 0 then -n else n;
    DigitsCanonical(k);
    if n < 0 {
      assert FormatInt(n)[1..] == Digits(k);
    }
  }

  lemma {:induction false} DigitsCanonical(n: nat)
    ensures Digits(n) != "" && AllDigits(Digits(n)) && (n > 0 ==> Digits(n)[0] != '0')
    ensures Digits(n)[0] == '0' ==> Digits(n) == "0"
  {
    if n < 10 {
    } else {
      DigitsCanonical(n / 10);
    }
  }

  /** Every int64, the least one included, is read back from its decimal form. */
  lemma ParseInvertsFormat(n: int)
    requires Int64(n)
    ensures ParseInt(FormatInt(n)) == Some(n)
  {
    hide ParseInt, FormatInt;
    ParseFormat(n);
  }

  lemma ParseIntRange(s: string)
    ensures ParseInt(s).Some? ==> Int64(ParseInt(s).value)
  {
  }

  /** Outside the range the decimal form is rejected. */
  lemma ParseIntOverflows(n: int)
    ensures ParseInt(FormatInt(n)).Some? <==> Int64(n)
  {
    hide ParseInt, FormatInt;
    ParseFormat(n);
  }

  /** A decimal form has no spaces and no quotes, and starts with a digit or a minus sign. */
  lemma FormatShape(n: int)
    ensures FormatInt(n) != ""
    ensures forall i :: 0 <= i < |FormatInt(n)| ==> IsDigit(FormatInt(n)[i]) || FormatInt(n)[i] == '-'
  {
    ParseInvertsDigits(if n < 0 then -n else n);
  }
}
