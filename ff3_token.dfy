/** The token cipher (ff3Token.go): a value that binds an FF3-1 primitive of radix 52 to a tweak
    and wraps its Encrypt and Decrypt so that plaintexts are all numbers and ciphertexts all
    letters. */
module Token {
  import opened Wrappers
  import opened Unicode
  import opened Errors
  import opened TokenInternal

  type Bytes = seq<bv8>

  /** The FF3-1 primitive of the external library, as the two calls the wrapper makes on it;
      both take the tweak on every call. */
  datatype Ff3 = Ff3(encrypt: (string, Bytes) -> Outcome, decrypt: (string, Bytes) -> Outcome)

  /** The library's constructor `NewFF3_1(key, tweak, radix)`. */
  type Ff3Constructor = (Bytes, Bytes, int) -> (Ff3, Option<Error>)

  /** The primitive's radix: its alphabet has 52 symbols. */
  const RadixLength: int := 52

  /** The digits of Go's `math/big` for bases up to 62, in the order the library numbers
      them; a radix-`n` primitive uses the first `n`. */
  const Base62: string :=
    seq(62, i requires 0 <= i < 62 =>
      if i < 10 then ('0' as int + i) as char
      else if i < 36 then ('a' as int + i - 10) as char
      else ('A' as int + i - 36) as char)

  /** Why the radix must be 52: the first 52 digits are distinct radix-52 symbols, so none is a
      substitute letter, and the ten digits after them are exactly the substitutes Q..Z. */
  lemma RadixLengthAvoidsSubstitutes(u: CharClasses)
    requires Sound(u)
    ensures forall i :: 0 <= i < RadixLength ==> Radix52Symbol(u, Base62[i])
    ensures forall i, j :: 0 <= i < j < |Base62| ==> Base62[i] != Base62[j]
    ensures forall i :: RadixLength <= i < |Base62| ==> IsSubstitute(Base62[i])
    ensures forall c :: IsSubstitute(c) ==> exists i :: RadixLength <= i < |Base62| && Base62[i] == c
  {
    forall i | 0 <= i < RadixLength ensures Radix52Symbol(u, Base62[i]) {
      if 10 <= i { assert IsAsciiLetter(Base62[i]); }
    }
    forall c | IsSubstitute(c) ensures exists i :: RadixLength <= i < |Base62| && Base62[i] == c {
      var i := c as int - 'A' as int + 36;
      assert Base62[i] == c;
    }
  }

  /* ---------------------------------------------------------------------------------------- */
  /* What the wrapper assumes of the primitive                                                 */

  /** Decryption undoes encryption under the same tweak. */
  ghost predicate DecryptInvertsEncrypt(f: Ff3, tweak: Bytes) {
    forall x :: f.encrypt(x, tweak).err.None? ==> f.decrypt(f.encrypt(x, tweak).value, tweak) == Outcome(x, None)
  }

  /** Encryption undoes decryption under the same tweak (the primitive is a permutation). */
  ghost predicate EncryptInvertsDecrypt(f: Ff3, tweak: Bytes) {
    forall y :: f.decrypt(y, tweak).err.None? ==> f.encrypt(f.decrypt(y, tweak).value, tweak) == Outcome(y, None)
  }

  /** Encryption keeps the length of its input. */
  ghost predicate EncryptPreservesLength(f: Ff3, tweak: Bytes) {
    forall x :: f.encrypt(x, tweak).err.None? ==> |f.encrypt(x, tweak).value| == |x|
  }

  /** Encryption emits only radix-52 symbols: ASCII digits and letters other than Q..Z. */
  ghost predicate EmitsRadix52(u: CharClasses, f: Ff3, tweak: Bytes) {
    forall x :: f.encrypt(x, tweak).err.None? ==> Radix52Text(u, f.encrypt(x, tweak).value)
  }

  /** Encryption emits only the first `RadixLength` digits of the `0-9a-zA-Z` order. */
  ghost predicate EmitsRadix52Prefix(f: Ff3, tweak: Bytes) {
    forall x :: f.encrypt(x, tweak).err.None? ==>
      forall i :: 0 <= i < |f.encrypt(x, tweak).value| ==> f.encrypt(x, tweak).value[i] in Base62[..RadixLength]
  }

  /** A primitive of radix 52 meets the alphabet assumption of the round trip: nothing it emits
      is one of the substitute letters Q..Z. */
  lemma Radix52PrefixMeetsAssumption(u: CharClasses, f: Ff3, tweak: Bytes)
    requires Sound(u)
    requires EmitsRadix52Prefix(f, tweak)
    ensures EmitsRadix52(u, f, tweak)
  {
  }

  /* ---------------------------------------------------------------------------------------- */
  /* The cipher                                                                                */

  /** A token cipher: the primitive and the tweak it is used with. */
  datatype Cipher = Cipher(ff3: Ff3, tweak: Bytes)
  {
    /** Encrypt: the plaintext must be numeric; the primitive's output is then made all letters. */
    function Encrypt(u: CharClasses, x: string): (r: Outcome)
      ensures r.err.Some? ==> r.value == ""
      ensures r.err.None? ==> Numeric(u, x) && ff3.encrypt(x, tweak).err.None?
    {
      if !Numeric(u, x) then Fail(NotNumericInput)
      else
        var result := ff3.encrypt(x, tweak);
        if result.err.Some? then Outcome("", result.err)
        else PostEncrypted(u, result.value)
    }

    /** Decrypt: the ciphertext's substitutes are turned back into digits, and what the
        primitive decrypts must be numeric. */
    function Decrypt(u: CharClasses, x: string): (r: Outcome)
      ensures r.err.Some? ==> r.value == ""
      ensures r.err.None? ==> Numeric(u, r.value)
    {
      var newX := PreDecrypted(u, x);
      if newX.err.Some? then newX
      else
        var decrypted := ff3.decrypt(newX.value, tweak);
        if decrypted.err.Some? then Outcome("", decrypted.err)
        else if !Numeric(u, decrypted.value) then Fail(NonNumericDecryption)
        else decrypted
    }
  }

  /** NewCipher: builds the primitive from the key, the tweak and the fixed radix, and keeps the
      tweak; the library's error, if any, is returned beside the cipher. */
  function NewCipher(newFf3: Ff3Constructor, key: Bytes, tweak: Bytes): (r: (Cipher, Option<Error>))
    ensures r.0.tweak == tweak
    ensures (r.0.ff3, r.1) == newFf3(key, tweak, RadixLength)
  {
    var (ff3, err) := newFf3(key, tweak, RadixLength);
    (Cipher(ff3, tweak), err)
  }

  /* ---------------------------------------------------------------------------------------- */
  /* Properties of the cipher                                                                  */

  /** Encrypt refuses a plaintext that is not all numbers before the primitive is consulted:
      every cipher gives the same error, whatever its primitive and tweak. */
  lemma EncryptRejectsNonNumeric(c: Cipher, d: Cipher, u: CharClasses, x: string)
    requires !Numeric(u, x)
    ensures c.Encrypt(u, x) == Fail(NotNumericInput)
    ensures c.Encrypt(u, x) == d.Encrypt(u, x)
  {
  }

  /** The card number with a trailing letter is refused by Encrypt. */
  lemma EncryptRejectsTrailingLetter(c: Cipher, u: CharClasses)
    requires Sound(u)
    ensures c.Encrypt(u, "414700000000123x") == Fail(NotNumericInput)
    ensures c.Encrypt(u, "414700000000123x").err.value.Message() == "invalid input sent to Encrypt (must be numeric)"
  {
    var x := "414700000000123x";
    assert IsAsciiLetter(x[15]);
    assert !Numeric(u, x);
  }

  /** The primitive's errors reach the caller of Encrypt unchanged, with the empty string. */
  lemma EncryptPropagatesLibraryError(c: Cipher, u: CharClasses, x: string)
    requires Numeric(u, x)
    requires c.ff3.encrypt(x, c.tweak).err.Some?
    ensures c.Encrypt(u, x) == Outcome("", c.ff3.encrypt(x, c.tweak).err)
  {
  }

  /** Encrypt of a numeric plaintext that the primitive encrypts fails only when the primitive's
      output holds a rune that is neither an ASCII digit nor a letter; when it succeeds, the
      ciphertext is all letters, holds no ASCII digit, and is as long as the plaintext if the
      primitive keeps lengths. */
  lemma EncryptOutputIsCiphertext(c: Cipher, u: CharClasses, x: string)
    requires Sound(u)
    requires Numeric(u, x)
    requires c.ff3.encrypt(x, c.tweak).err.None?
    ensures var e := c.ff3.encrypt(x, c.tweak).value;
      c.Encrypt(u, x).err.Some? <==> exists i :: 0 <= i < |e| && !IsAsciiDigit(e[i]) && !u.isLetter(e[i])
    ensures c.Encrypt(u, x).err.Some? ==> c.Encrypt(u, x) == Fail(InvalidCipherOutput)
    ensures c.Encrypt(u, x).err.None? ==>
      && AllLetters(u, c.Encrypt(u, x).value)
      && NoAsciiDigit(c.Encrypt(u, x).value)
      && (EncryptPreservesLength(c.ff3, c.tweak) ==> |c.Encrypt(u, x).value| == |x|)
  {
    var e := c.ff3.encrypt(x, c.tweak).value;
    PostEncryptFailsIff(u, e);
    if PostEncrypted(u, e).err.None? {
      PostEncryptOutput(u, e);
    }
  }

  /** With the library's radix-52 alphabet, a ciphertext from Encrypt is made of ASCII letters
      only: digits become Q..Z and every other symbol of the alphabet is an ASCII letter. */
  lemma EncryptOutputIsAsciiLetters(c: Cipher, u: CharClasses, x: string)
    requires Sound(u)
    requires EmitsRadix52Prefix(c.ff3, c.tweak)
    ensures c.Encrypt(u, x).err.None? ==>
      forall i :: 0 <= i < |c.Encrypt(u, x).value| ==> IsAsciiLetter(c.Encrypt(u, x).value[i])
  {
    if c.Encrypt(u, x).err.None? {
      var e := c.ff3.encrypt(x, c.tweak).value;
      PostEncryptOutput(u, e);
      forall i | 0 <= i < |e| ensures IsAsciiLetter(c.Encrypt(u, x).value[i]) {
        var k :| 0 <= k < RadixLength && Base62[..RadixLength][k] == e[i];
        assert Base62[k] == e[i];
      }
    }
  }

  /** Decrypt refuses a ciphertext holding a non-letter before the primitive is consulted:
      every cipher gives the same error, whatever its primitive and tweak. */
  lemma DecryptRejectsNonLetters(c: Cipher, d: Cipher, u: CharClasses, y: string)
    requires Sound(u)
    requires !AllLetters(u, y)
    ensures c.Decrypt(u, y) == Fail(NotLetterInput)
    ensures c.Decrypt(u, y) == d.Decrypt(u, y)
  {
    PreDecryptFailsIff(u, y);
  }

  /** After the substitutes are turned back into digits, the primitive's errors reach the caller
      unchanged, and a decryption that is not all numbers is refused; every failure returns the
      empty string. */
  lemma DecryptFailures(c: Cipher, u: CharClasses, y: string)
    requires Sound(u)
    requires AllLetters(u, y)
    ensures var d := c.ff3.decrypt(PreDecrypted(u, y).value, c.tweak);
      && (d.err.Some? ==> c.Decrypt(u, y) == Outcome("", d.err))
      && (d.err.None? && !Numeric(u, d.value) ==> c.Decrypt(u, y) == Fail(NonNumericDecryption))
      && (d.err.None? && Numeric(u, d.value) ==> c.Decrypt(u, y) == Outcome(d.value, None))
  {
    PreDecryptFailsIff(u, y);
  }

  /** Round trip: a numeric plaintext that the primitive encrypts is recovered by Decrypt, when
      the primitive's decryption undoes its encryption and it emits only radix-52 symbols. */
  lemma DecryptAfterEncrypt(c: Cipher, u: CharClasses, x: string)
    requires Sound(u)
    requires DecryptInvertsEncrypt(c.ff3, c.tweak)
    requires EmitsRadix52(u, c.ff3, c.tweak)
    requires Numeric(u, x)
    requires c.ff3.encrypt(x, c.tweak).err.None?
    ensures c.Encrypt(u, x).err.None?
    ensures c.Decrypt(u, c.Encrypt(u, x).value) == Outcome(x, None)
  {
    var e := c.ff3.encrypt(x, c.tweak).value;
    assert Radix52Text(u, e);
    PreDecryptAfterPostEncrypt(u, e);
  }

  /** Round trip the other way: a ciphertext that Decrypt accepts is given back by Encrypt of
      the plaintext, when the primitive's encryption undoes its decryption. */
  lemma EncryptAfterDecrypt(c: Cipher, u: CharClasses, y: string)
    requires Sound(u)
    requires EncryptInvertsDecrypt(c.ff3, c.tweak)
    requires c.Decrypt(u, y).err.None?
    ensures c.Encrypt(u, c.Decrypt(u, y).value) == Outcome(y, None)
  {
    if !AllLetters(u, y) {
      PreDecryptFailsIff(u, y);
    }
    PostEncryptAfterPreDecrypt(u, y);
  }

  /** Plaintext and ciphertext never look alike: a non-empty ciphertext from Encrypt is not
      numeric, and a non-empty plaintext from Decrypt is not all letters. */
  lemma DomainsAreSeparate(c: Cipher, u: CharClasses, x: string, y: string)
    requires Sound(u)
    ensures c.Encrypt(u, x).err.None? && c.Encrypt(u, x).value != [] ==> !Numeric(u, c.Encrypt(u, x).value)
    ensures c.Decrypt(u, y).err.None? && c.Decrypt(u, y).value != [] ==> !AllLetters(u, c.Decrypt(u, y).value)
  {
    var e := c.Encrypt(u, x);
    if e.err.None? && e.value != [] {
      EncryptOutputIsCiphertext(c, u, x);
      assert u.isLetter(e.value[0]);
    }
    var d := c.Decrypt(u, y);
    if d.err.None? && d.value != [] {
      assert u.isNumber(d.value[0]);
    }
  }

  /** Only the tweak bound in the cipher reaches the primitive: two primitives that agree on
      every call with that tweak give the same Encrypt and Decrypt. */
  lemma OnlyBoundTweakMatters(f: Ff3, g: Ff3, tweak: Bytes, u: CharClasses, x: string)
    requires forall s :: f.encrypt(s, tweak) == g.encrypt(s, tweak) && f.decrypt(s, tweak) == g.decrypt(s, tweak)
    ensures Cipher(f, tweak).Encrypt(u, x) == Cipher(g, tweak).Encrypt(u, x)
    ensures Cipher(f, tweak).Decrypt(u, x) == Cipher(g, tweak).Decrypt(u, x)
  {
  }
}
