/** Timestamp, the lenient JSON number: a field that is only decoration must not break a message. */
module Timestamps {
  import opened Wrappers
  import opened Strings
  import opened Decimal
  import opened Integers

  function Unmarshalled(data: string): (n: int) {
    var s := TrimChar(TrimSpace(data), '"');
    if s == "" || s == "null" then 0 else
    match ParseInt(s)
    case None => 0
    case Some(n) => n
  }

  class Timestamp {
    var value: int

    constructor ()
      ensures value == 0
    {
      value := 0;
    }

    /** Never fails. */
    method UnmarshalJSON(data: string)
      modifies this
      ensures value == Unmarshalled(data) && Int64(value)
    {
      var s := TrimChar(TrimSpace(data), '"');
      if s == "" || s == "null" {
        value := 0;
        return;
      }
      var v := ParseInt(s);
      ParseIntRange(s);
      if v.None? {
        value := 0;
        return;
      }
      value := v.value;
    }

    function MarshalJSON(): (s: string)
      reads this
      ensures Unmarshalled(s) == if Int64(value) then value else 0
    {
      var s := FormatInt(value);
      UnmarshalInvertsMarshal(value, 0, 0, "", "");
      assert "" + Quoted(s, 0, 0) + "" == s;
      s
    }
  }

  /** A text between m and n quotes. */
  function Quoted(s: string, m: nat, n: nat): string {
    Repeated('"', m) + s + Repeated('"', n)
  }

  /** Neither quotes nor white space are left at the ends once white space and then quotes have been trimmed. */
  predicate Trimmed(s: string, m: nat, n: nat) {
    s != "" ==>
      && s[0] != '"' && s[|s| - 1] != '"'
      && (m == 0 ==> !IsSpace(s[0])) && (n == 0 ==> !IsSpace(s[|s| - 1]))
  }

  /** Between any quotes and amid white space, a text reads as the int64 it is, or as zero. */
  lemma UnmarshalAmidSpace(s: string, m: nat, n: nat, pre: string, post: string)
    requires Blank(pre) && Blank(post) && Trimmed(s, m, n)
    ensures Unmarshalled(pre + Quoted(s, m, n) + post) ==
              match ParseInt(s)
              case Some(v) => v
              case None => 0
  {
    NullIsNoInt();
    TrimSpaceExact(pre, Quoted(s, m, n), post);
    TrimCharExact('"', m, s, n);
    hide ParseInt, TrimSpace, TrimChar;
  }

  lemma NullIsNoInt()
    ensures ParseInt("null").None?
  {
    assert !IsDigit("null"[3]);
  }

  /** Every int64 is read back from its decimal form, between any quotes, amid white space; other numbers are not. */
  lemma UnmarshalInvertsMarshal(v: int, m: nat, n: nat, pre: string, post: string)
    requires Blank(pre) && Blank(post)
    ensures Unmarshalled(pre + Quoted(FormatInt(v), m, n) + post) == if Int64(v) then v else 0
  {
    FormatShape(v);
    ParseIntOverflows(v);
    if Int64(v) {
      ParseInvertsFormat(v);
    }
    UnmarshalAmidSpace(FormatInt(v), m, n, pre, post);
  }

  /** White space alone, null and any other text that is no int64 read as zero, between any quotes, amid white space. */
  lemma NothingIsZero(s: string, m: nat, n: nat, pre: string, post: string)
    requires Blank(pre) && Blank(post) && Trimmed(s, m, n)
    requires s == "" || s == "null" || ParseInt(s).None?
    ensures Unmarshalled(pre + Quoted(s, m, n) + post) == 0
  {
    NullIsNoInt();
    UnmarshalAmidSpace(s, m, n, pre, post);
  }
}
