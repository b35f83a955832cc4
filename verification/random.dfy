/**
 `NinRandom`: random strings over a fixed 62-character alphabet. The
 process-wide pseudo-random generator is modelled as an oracle stream: the
 k-th call of `Intn(62)` answers `draw(k)`, and `pos` counts the calls made so far.
 */
module Random {

  const Lowercase: string := "abcdefghijklmnopqrstuvwxyz"
  const Uppercase: string := "ABCDEFGHIJKLMNOPQRSTUVWXYZ"
  const DecimalDigits: string := "0123456789"

  /** The 62-character alphabet: lower-case letters, upper-case letters, digits, in that order. */
  const Charset: string := Lowercase + Uppercase + DecimalDigits

  /** Length of every nonce the credential helper draws. */
  const NonceLength: nat := 18

  /** An answer of `Intn(len(charset))`. */
  type CharIndex = i: int | 0 <= i < 62

  datatype Rng = Rng(draw: nat -> CharIndex, pos: nat)
  {
    /** The generator after `k` further draws. */
    function Skip(k: nat): (r: Rng)
      ensures r.draw == draw && r.pos == pos + k
    {
      Rng(draw, pos + k)
    }
  }

  predicate IsAlphanumeric(c: char)
  {
    ('a' <= c <= 'z') || ('A' <= c <= 'Z') || ('0' <= c <= '9')
  }

  lemma CharsetSize()
    ensures |Charset| == 62
  {
  }

  /** Alphabet entry `i`, computed from code points: the same 62 characters in the same order. */
  function Alphabet(i: CharIndex): (c: char)
    ensures IsAlphanumeric(c)
  {
    if i < 26 then (('a' as int) + i) as char
    else if i < 52 then (('A' as int) + (i - 26)) as char
    else (('0' as int) + (i - 52)) as char
  }

  lemma LowercaseIsAlphabet(i: nat)
    requires i < 26
    ensures Lowercase[i] == Alphabet(i)
  {
  }

  lemma UppercaseIsAlphabet(i: nat)
    requires i < 26
    ensures Uppercase[i] == Alphabet(26 + i)
  {
  }

  lemma DecimalDigitsIsAlphabet(i: nat)
    requires i < 10
    ensures DecimalDigits[i] == Alphabet(52 + i)
  {
  }

  /** The literal alphabet and the computed one agree entry by entry. */
  lemma CharsetIsAlphabet(i: CharIndex)
    ensures Charset[i] == Alphabet(i)
  {
    if i < 26 {
      assert Charset[i] == Lowercase[i];
      LowercaseIsAlphabet(i);
    } else if i < 52 {
      assert Charset[i] == Uppercase[i - 26];
      UppercaseIsAlphabet(i - 26);
    } else {
      assert Charset[i] == DecimalDigits[i - 52];
      DecimalDigitsIsAlphabet(i - 52);
    }
  }

  /** Every character of the alphabet is an ASCII letter or digit. */
  lemma CharsetAlphanumeric(i: CharIndex)
    ensures IsAlphanumeric(Charset[i])
  {
    CharsetIsAlphabet(i);
  }

  /**
   The string drawn by `length` consecutive calls, as a reference
   definition: character `i` is the alphabet entry picked by the `i`-th draw.
   */
  function RandomString(length: nat, rng: Rng): (r: (string, Rng))
    ensures |r.0| == length
    ensures r.1 == rng.Skip(length)
  {
    (seq(length, i requires 0 <= i < length => Alphabet(rng.draw(rng.pos + i))), rng.Skip(length))
  }

  /** Every character of a random string is alphanumeric. */
  lemma RandomStringAlphanumeric(length: nat, rng: Rng)
    ensures var s := RandomString(length, rng).0;
      forall i :: 0 <= i < |s| ==> IsAlphanumeric(s[i])
  {
    var s := RandomString(length, rng).0;
    forall i | 0 <= i < |s| ensures IsAlphanumeric(s[i]) {
      assert s[i] == Alphabet(rng.draw(rng.pos + i));
    }
  }

  /**
   `getRandomString`: fills a buffer of `length` characters, one draw per
   character, in index order.
   */
  method FillRandom(length: nat, rng: Rng) returns (s: string, rng': Rng)
    ensures (s, rng') == RandomString(length, rng)
    ensures forall i :: 0 <= i < |s| ==> IsAlphanumeric(s[i])
  {
    s := [];
    rng' := rng;
    var i := 0;
    while i < length
      invariant 0 <= i <= length
      invariant |s| == i
      invariant rng' == rng.Skip(i)
      invariant forall k :: 0 <= k < i ==> s[k] == Alphabet(rng.draw(rng.pos + k))
    {
      s := s + [Alphabet(rng'.draw(rng'.pos))];
      rng' := rng'.Skip(1);
      i := i + 1;
    }
    assert s == RandomString(length, rng).0;
    RandomStringAlphanumeric(length, rng);
  }

  /** `getNonce`: a random string of the nonce length. */
  function Nonce(rng: Rng): (r: (string, Rng))
    ensures |r.0| == NonceLength
    ensures r.1 == rng.Skip(NonceLength)
  {
    RandomString(NonceLength, rng)
  }

  /** A nonce is eighteen alphanumeric characters, the alphabet entries of the next eighteen draws. */
  lemma NonceDraws(rng: Rng)
    ensures var n := Nonce(rng).0;
      && (forall i :: 0 <= i < NonceLength ==> n[i] == Alphabet(rng.draw(rng.pos + i)))
      && (forall i :: 0 <= i < NonceLength ==> IsAlphanumeric(n[i]))
  {
    var s := Nonce(rng).0;
    assert forall i :: 0 <= i < NonceLength ==> s[i] == Alphabet(rng.draw(rng.pos + i)) by {
      assert s == RandomString(NonceLength, rng).0;
    }
    assert forall i :: 0 <= i < NonceLength ==> IsAlphanumeric(s[i]) by {
      RandomStringAlphanumeric(NonceLength, rng);
    }
  }

  /** A nonce drawn after `skipped` draws reads the next eighteen draws. */
  lemma NonceAfter(rng: Rng, skipped: nat, nonce: string)
    requires nonce == Nonce(rng.Skip(skipped)).0
    ensures forall i :: 0 <= i < NonceLength ==> nonce[i] == Alphabet(rng.draw(rng.pos + skipped + i))
  {
    NonceDraws(rng.Skip(skipped));
  }

  /** Three nonces drawn one after another use three consecutive, disjoint stretches of draws. */
  lemma ConsecutiveNonces(rng: Rng, first: string, second: string, third: string)
    requires first == Nonce(rng).0
    requires second == Nonce(Nonce(rng).1).0
    requires third == Nonce(Nonce(Nonce(rng).1).1).0
    ensures forall i :: 0 <= i < NonceLength ==> first[i] == Alphabet(rng.draw(rng.pos + i))
    ensures forall i :: 0 <= i < NonceLength ==> second[i] == Alphabet(rng.draw(rng.pos + NonceLength + i))
    ensures forall i :: 0 <= i < NonceLength ==> third[i] == Alphabet(rng.draw(rng.pos + 2 * NonceLength + i))
  {
    assert Nonce(rng).1 == rng.Skip(NonceLength);
    assert Nonce(Nonce(rng).1).1 == rng.Skip(2 * NonceLength);
    NonceAfter(rng, 0, first);
    NonceAfter(rng, NonceLength, second);
    NonceAfter(rng, 2 * NonceLength, third);
  }
}
