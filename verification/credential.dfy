/**
 `NinCredential`: the signing discipline shared by every request. The
 signature is base64(SHA-256(pre-image)); both primitives are supplied as
 function parameters and only the pre-image is modelled exactly.
 */
module Credential {

  /** The shared secret appended to every pre-image and never transmitted. */
  const Secret: string := "galumphing"

  const Crlf: string := "\r\n"

  /** SHA-256 over the pre-image's bytes and the standard base64 encoding of a digest. */
  datatype Crypto = Crypto(sha256: string -> seq<bv8>, base64: seq<bv8> -> string)

  /** Two fields with a CRLF between them. */
  function Separated(a: string, b: string): string
  {
    a + Crlf + b
  }

  /** The canonical string `url CRLF act CRLF nonce CRLF secret`, with no trailing separator. */
  function PreImage(url: string, act: string, nonce: string): (p: string)
    ensures |p| == |url| + |act| + |nonce| + |Secret| + 3 * |Crlf|
    ensures p[..|url|] == url && p[|p| - |Secret|..] == Secret
  {
    Separated(url, Separated(act, Separated(nonce, Secret)))
  }

  /** `getSignature(url, act, nonce)`. */
  function Signature(crypto: Crypto, url: string, act: string, nonce: string): string
  {
    crypto.base64(crypto.sha256(PreImage(url, act, nonce)))
  }

  /** A field that can sit between separators without being mistaken for one. */
  predicate IsField(s: string)
  {
    '\r' !in s
  }

  /** A CRLF after a carriage-return-free field marks where that field ends. */
  lemma FieldEnd(a: string, x: string)
    requires IsField(a)
    ensures var s := Separated(a, x);
      && s[|a|] == '\r'
      && forall k :: 0 <= k < |a| ==> s[k] != '\r'
  {
    var s := Separated(a, x);
    forall k | 0 <= k < |a| ensures s[k] != '\r' {
      assert s[k] == a[k];
    }
  }

  lemma SeparatorSplits(a: string, x: string, b: string, y: string)
    requires IsField(a) && IsField(b)
    requires Separated(a, x) == Separated(b, y)
    ensures a == b && x == y
  {
    var s := Separated(a, x);
    FieldEnd(a, x);
    FieldEnd(b, y);
    assert a == s[..|a|] == b;
    assert x == s[|a| + 2..] == y;
  }

  /**
   Distinct (url, act, nonce) triples of carriage-return-free fields have
   distinct pre-images: the pre-image determines every field it was built from.
   */
  lemma PreImageInjective(url1: string, act1: string, nonce1: string,
                          url2: string, act2: string, nonce2: string)
    requires IsField(url1) && IsField(act1) && IsField(nonce1)
    requires IsField(url2) && IsField(act2) && IsField(nonce2)
    requires PreImage(url1, act1, nonce1) == PreImage(url2, act2, nonce2)
    ensures url1 == url2 && act1 == act2 && nonce1 == nonce2
  {
    SeparatorSplits(url1, Separated(act1, Separated(nonce1, Secret)),
                    url2, Separated(act2, Separated(nonce2, Secret)));
    SeparatorSplits(act1, Separated(nonce1, Secret), act2, Separated(nonce2, Secret));
    SeparatorSplits(nonce1, Secret, nonce2, Secret);
  }

  /** The pre-image starts with the url and its separator and ends with the secret. */
  lemma PreImageLayout(url: string, act: string, nonce: string)
    ensures var p := PreImage(url, act, nonce);
      && |p| == |url| + |act| + |nonce| + |Secret| + 3 * |Crlf|
      && p[..|url|] == url
      && p[|url|..|url| + 2] == Crlf
      && p[|p| - |Secret|..] == Secret
  {
  }

  ghost predicate Injective<A(!new), B>(f: A -> B)
  {
    forall x, y :: f(x) == f(y) ==> x == y
  }

  /**
   With collision-free hashing and encoding, a signature identifies the
   (url, act, nonce) it was computed over: it cannot be replayed for another
   endpoint, action or nonce.
   */
  lemma SignatureBinding(crypto: Crypto, url1: string, act1: string, nonce1: string,
                         url2: string, act2: string, nonce2: string)
    requires Injective(crypto.sha256) && Injective(crypto.base64)
    requires IsField(url1) && IsField(act1) && IsField(nonce1)
    requires IsField(url2) && IsField(act2) && IsField(nonce2)
    requires Signature(crypto, url1, act1, nonce1) == Signature(crypto, url2, act2, nonce2)
    ensures url1 == url2 && act1 == act2 && nonce1 == nonce2
  {
    PreImageInjective(url1, act1, nonce1, url2, act2, nonce2);
  }
}
