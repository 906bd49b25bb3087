/** Callback signatures: a digest of four strings, sorted and joined, so that their order does not matter. */
module Signature {
  /** Go's order on strings: by the first difference, a prefix before its extensions. */
  predicate AtMost(a: string, b: string) {
    if a == "" then true
    else if b == "" then false
    else a[0] < b[0] || (a[0] == b[0] && AtMost(a[1..], b[1..]))
  }

  /** AtMost is the order of strings: a prefix, or a smaller character at the first difference. */
  lemma {:induction false} AtMostIsLexicographic(a: string, b: string)
    ensures AtMost(a, b) <==>
            a <= b || exists k :: 0 <= k < |a| && k < |b| && a[..k] == b[..k] && a[k] < b[k]
  {
    if a == "" || b == "" {
    } else if a[0] != b[0] {
      assert a[0] < b[0] ==> a[..0] == b[..0];
      forall k | 0 < k < |a| && k < |b| ensures a[..k] != b[..k] {
        assert a[..k][0] != b[..k][0];
      }
    } else {
      AtMostIsLexicographic(a[1..], b[1..]);
      assert a == [a[0]] + a[1..] && b == [b[0]] + b[1..];
      if k :| 0 <= k < |a| - 1 && k < |b| - 1 && a[1..][..k] == b[1..][..k] && a[1..][k] < b[1..][k] {
        assert a[..k + 1] == [a[0]] + a[1..][..k] && b[..k + 1] == [b[0]] + b[1..][..k];
        assert a[k + 1] < b[k + 1];
      }
      if k :| 0 <= k < |a| && k < |b| && a[..k] == b[..k] && a[k] < b[k] {
        assert k > 0;
        assert a[1..][..k - 1] == a[..k][1..] && b[1..][..k - 1] == b[..k][1..];
        assert a[1..][k - 1] < b[1..][k - 1];
      }
    }
  }

  lemma {:induction false} AtMostTotal(a: string, b: string)
    ensures AtMost(a, b) || AtMost(b, a)
  {
    if a == "" || b == "" || a[0] != b[0] {
    } else {
      AtMostTotal(a[1..], b[1..]);
    }
  }

  lemma {:induction false} AtMostAntisymmetric(a: string, b: string)
    requires AtMost(a, b) && AtMost(b, a)
    ensures a == b
  {
    if a == "" || b == "" {
    } else {
      AtMostAntisymmetric(a[1..], b[1..]);
      assert a == [a[0]] + a[1..] && b == [b[0]] + b[1..];
    }
  }

  lemma {:induction false} AtMostTransitive(a: string, b: string, c: string)
    requires AtMost(a, b) && AtMost(b, c)
    ensures AtMost(a, c)
  {
    if a == "" || !(a[0] == b[0] == c[0]) {
    } else {
      AtMostTransitive(a[1..], b[1..], c[1..]);
    }
  }

  predicate Ordered(s: seq<string>) {
    forall i, j :: 0 <= i < j < |s| ==> AtMost(s[i], s[j])
  }

  predicate Permuted(s: seq<string>, t: seq<string>) {
    multiset(s) == multiset(t)
  }

  lemma FirstIsLeast(s: seq<string>, x: string)
    requires Ordered(s) && x in s
    ensures AtMost(s[0], x)
  {
    AtMostTotal(x, x);
    hide AtMost;
  }

  lemma TailElements(s: seq<string>)
    requires s != []
    ensures s[0] in s && multiset(s[1..]) == multiset(s) - multiset{s[0]}
  {
    assert s == [s[0]] + s[1..];
  }

  lemma OrderedCons(head: string, rest: seq<string>)
    requires Ordered(rest) && forall x :: x in rest ==> AtMost(head, x)
    ensures Ordered([head] + rest)
  {
  }

  lemma SameFirst(s: seq<string>, t: seq<string>)
    requires Ordered(s) && Ordered(t) && Permuted(s, t) && s != [] && t != []
    ensures s[0] == t[0]
  {
    hide AtMost, Ordered;
    assert s[0] in multiset(t) && t[0] in multiset(s);
    FirstIsLeast(s, t[0]);
    FirstIsLeast(t, s[0]);
    AtMostAntisymmetric(s[0], t[0]);
  }

  /** An ordered list is determined by its elements. */
  lemma {:induction false} OrderedUnique(s: seq<string>, t: seq<string>)
    requires Ordered(s) && Ordered(t) && Permuted(s, t)
    ensures s == t
  {
    assert |multiset(s)| == |s| && |multiset(t)| == |t|;
    if s == [] {
    } else {
      SameFirst(s, t);
      TailElements(s);
      TailElements(t);
      assert Ordered(s[1..]) && Ordered(t[1..]);
      hide Ordered;
      OrderedUnique(s[1..], t[1..]);
      assert s == [s[0]] + s[1..] && t == [t[0]] + t[1..];
    }
  }

  /** Insertion into an ordered list. */
  function Insert(x: string, s: seq<string>): seq<string> {
    if s == [] then [x]
    else if AtMost(x, s[0]) then [x] + s
    else [s[0]] + Insert(x, s[1..])
  }

  lemma {:induction false} InsertElements(x: string, s: seq<string>)
    ensures multiset(Insert(x, s)) == multiset(s) + multiset{x}
  {
    hide AtMost;
    if s == [] {
    } else {
      InsertElements(x, s[1..]);
      TailElements(s);
    }
  }

  lemma {:induction false} InsertOrdered(x: string, s: seq<string>)
    requires Ordered(s)
    ensures Ordered(Insert(x, s))
  {
    hide AtMost;
    if s == [] {
    } else {
      if AtMost(x, s[0]) {
        forall y | y in s ensures AtMost(x, y) {
          FirstIsLeast(s, y);
          AtMostTransitive(x, s[0], y);
        }
        OrderedCons(x, s);
      } else {
        InsertOrdered(x, s[1..]);
        InsertElements(x, s[1..]);
        forall y | y in Insert(x, s[1..]) ensures AtMost(s[0], y) {
          AtMostTotal(x, s[0]);
          assert y in multiset(Insert(x, s[1..]));
          if y != x {
            FirstIsLeast(s, y);
          }
        }
        OrderedCons(s[0], Insert(x, s[1..]));
      }
    }
  }

  /** sort.Strings; by SortsAgree any other sorting algorithm would give the same. */
  function Sorted(s: seq<string>): seq<string> {
    if s == [] then [] else Insert(s[0], Sorted(s[1..]))
  }

  lemma {:induction false} SortedSorts(s: seq<string>)
    ensures Ordered(Sorted(s)) && Permuted(Sorted(s), s)
  {
    if s == [] {
    } else {
      assert s == [s[0]] + s[1..];
      SortedSorts(s[1..]);
      InsertOrdered(s[0], Sorted(s[1..]));
      InsertElements(s[0], Sorted(s[1..]));
    }
  }

  lemma SortsAgree(s: seq<string>, t: seq<string>)
    requires Permuted(s, t) && Ordered(t)
    ensures t == Sorted(s)
  {
    SortedSorts(s);
    OrderedUnique(Sorted(s), t);
  }

  /** strings.Join with an empty separator. */
  function Joined(s: seq<string>): string {
    if s == [] then "" else s[0] + Joined(s[1..])
  }

  /** SHA-1 and the hexadecimal form of its result. */
  type Digest = string -> string

  function ComputeSignature(digest: Digest, token: string, timestamp: string, nonce: string, encrypt: string): string {
    digest(Joined(Sorted([token, timestamp, nonce, encrypt])))
  }

  predicate VerifySignature(digest: Digest, token: string, signature: string, timestamp: string, nonce: string,
      encrypt: string) {
    ComputeSignature(digest, token, timestamp, nonce, encrypt) == signature
  }

  datatype WebhookSignature = WebhookSignature(token: string, timestamp: string, nonce: string, payload: string,
      signature: string)

  predicate VerifyWebhookSignature(digest: Digest, x: WebhookSignature) {
    var parts := [x.token, x.timestamp, x.nonce, x.payload];
    digest(Joined(Sorted(parts))) == x.signature
  }

  lemma JoinedFour(s: seq<string>)
    requires |s| == 4
    ensures Joined(s) == s[0] + s[1] + s[2] + s[3]
  {
    assert s[1..][1..] == s[2..] && s[2..][1..] == s[3..] && s[3..][1..] == [];
    assert Joined(s[3..]) == s[3] + Joined([]) == s[3];
    assert Joined(s[2..]) == s[2] + Joined(s[3..]);
    assert Joined(s[1..]) == s[1] + Joined(s[2..]);
  }

  /** The four strings, in Go's order, whatever order they are listed in. */
  ghost predicate Arranged(parts: seq<string>, token: string, timestamp: string, nonce: string, encrypt: string) {
    Permuted(parts, [token, timestamp, nonce, encrypt]) && |parts| == 4 && Ordered(parts)
  }

  lemma IsArranged(token: string, timestamp: string, nonce: string, encrypt: string)
    ensures Arranged(Sorted([token, timestamp, nonce, encrypt]), token, timestamp, nonce, encrypt)
  {
    var parts := [token, timestamp, nonce, encrypt];
    SortedSorts(parts);
    assert |multiset(Sorted(parts))| == |Sorted(parts)| && |multiset(parts)| == |parts|;
  }

  /** The signature depends on the four strings only, not on the order in which they are listed or sorted. */
  lemma SignatureOfAnyOrder(digest: Digest, token: string, timestamp: string, nonce: string, encrypt: string,
      parts: seq<string>)
    requires Arranged(parts, token, timestamp, nonce, encrypt)
    ensures ComputeSignature(digest, token, timestamp, nonce, encrypt) ==
              digest(parts[0] + parts[1] + parts[2] + parts[3])
    ensures forall x :: Permuted(x, parts) ==> Sorted(x) == parts
  {
    JoinedFour(parts);
    SortsAgree([token, timestamp, nonce, encrypt], parts);
    forall x | Permuted(x, parts) ensures Sorted(x) == parts {
      SortsAgree(x, parts);
    }
  }

  /** Both verifiers accept the digest of the joined strings and nothing else. */
  lemma VerifiersAreExact(digest: Digest, token: string, signature: string, timestamp: string, nonce: string,
      encrypt: string, parts: seq<string>)
    requires Arranged(parts, token, timestamp, nonce, encrypt)
    ensures VerifySignature(digest, token, signature, timestamp, nonce, encrypt) <==>
            signature == digest(parts[0] + parts[1] + parts[2] + parts[3])
    ensures VerifyWebhookSignature(digest, WebhookSignature(token, timestamp, nonce, encrypt, signature)) <==>
            signature == digest(parts[0] + parts[1] + parts[2] + parts[3])
  {
    SignatureOfAnyOrder(digest, token, timestamp, nonce, encrypt, parts);
  }

  /** The signature is the digest of the four strings, arranged in their order and joined. */
  ghost predicate IsSignatureOf(digest: Digest, signature: string, token: string, timestamp: string, nonce: string,
                               encrypt: string) {
    forall parts :: Arranged(parts, token, timestamp, nonce, encrypt) ==>
      signature == digest(parts[0] + parts[1] + parts[2] + parts[3])
  }

  lemma VerifierIsExact(digest: Digest, token: string, signature: string, timestamp: string, nonce: string,
                        encrypt: string)
    ensures VerifySignature(digest, token, signature, timestamp, nonce, encrypt) <==>
            IsSignatureOf(digest, signature, token, timestamp, nonce, encrypt)
  {
    hide Permuted, Ordered, Sorted, VerifySignature;
    IsArranged(token, timestamp, nonce, encrypt);
    var sorted := Sorted([token, timestamp, nonce, encrypt]);
    VerifiersAreExact(digest, token, signature, timestamp, nonce, encrypt, sorted);
    forall parts | Arranged(parts, token, timestamp, nonce, encrypt)
      ensures VerifySignature(digest, token, signature, timestamp, nonce, encrypt) <==>
              signature == digest(parts[0] + parts[1] + parts[2] + parts[3])
    {
      VerifiersAreExact(digest, token, signature, timestamp, nonce, encrypt, parts);
    }
  }
}
