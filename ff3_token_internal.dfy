/** The digit/letter substitution that keeps ciphertext apart from plaintext
    (ff3TokenInternal.go): the two tables, the two rune-by-rune transforms and the
    numeric-input validator. */
module TokenInternal {
  import opened Wrappers
  import opened Unicode
  import opened Errors

  /** Digits the cipher emits are rewritten to the ten letters Q..Z ... */
  const PostEncryptCipherMap: map<char, char> :=
    map['0' := 'Q', '1' := 'R', '2' := 'S', '3' := 'T', '4' := 'U',
        '5' := 'V', '6' := 'W', '7' := 'X', '8' := 'Y', '9' := 'Z']

  /** ... and those letters are rewritten back to digits before decryption. */
  const PreDecryptCipherMap: map<char, char> :=
    map['Q' := '0', 'R' := '1', 'S' := '2', 'T' := '3', 'U' := '4',
        'V' := '5', 'W' := '6', 'X' := '7', 'Y' := '8', 'Z' := '9']

  /** The ten letters that stand for digits in a ciphertext. */
  predicate IsSubstitute(c: char) {
    'Q' <= c <= 'Z'
  }

  /** A symbol the radix-52 primitive may emit: an ASCII digit, or a letter that is not one of
      the substitutes. */
  predicate Radix52Symbol(u: CharClasses, c: char) {
    IsAsciiDigit(c) || (u.isLetter(c) && !IsSubstitute(c))
  }

  predicate Radix52Text(u: CharClasses, s: string) {
    forall i :: 0 <= i < |s| ==> Radix52Symbol(u, s[i])
  }

  /** Every rune of `s` is a number (`unicode.IsNumber`); true of the empty string. */
  predicate Numeric(u: CharClasses, s: string) {
    forall i :: 0 <= i < |s| ==> u.isNumber(s[i])
  }

  lemma CipherMapsAreInverse()
    ensures forall c :: c in PostEncryptCipherMap <==> IsAsciiDigit(c)
    ensures forall c :: c in PreDecryptCipherMap <==> IsSubstitute(c)
    ensures forall d :: d in PostEncryptCipherMap ==>
      PostEncryptCipherMap[d] in PreDecryptCipherMap && PreDecryptCipherMap[PostEncryptCipherMap[d]] == d
    ensures forall l :: l in PreDecryptCipherMap ==>
      PreDecryptCipherMap[l] in PostEncryptCipherMap && PostEncryptCipherMap[PreDecryptCipherMap[l]] == l
    ensures forall d, e :: d in PostEncryptCipherMap && e in PostEncryptCipherMap && d != e ==>
      PostEncryptCipherMap[d] != PostEncryptCipherMap[e]
    ensures forall l, m :: l in PreDecryptCipherMap && m in PreDecryptCipherMap && l != m ==>
      PreDecryptCipherMap[l] != PreDecryptCipherMap[m]
  {
  }

  /* ---------------------------------------------------------------------------------------- */
  /* Specification of the transforms                                                          */

  /** Rewrites `s` rune by rune with `f`; `None` as soon as `f` rejects a rune. */
  function Rewrite(f: char -> Option<char>, s: string): Option<string>
  {
    if s == [] then Some([])
    else match f(s[0])
      case None => None
      case Some(c) =>
        match Rewrite(f, s[1..])
        case None => None
        case Some(t) => Some([c] + t)
  }

  lemma {:induction false} RewriteAt(f: char -> Option<char>, s: string)
    ensures Rewrite(f, s).Some? <==> forall i :: 0 <= i < |s| ==> f(s[i]).Some?
    ensures Rewrite(f, s).Some? ==>
      |Rewrite(f, s).value| == |s| && forall i :: 0 <= i < |s| ==> Rewrite(f, s).value[i] == f(s[i]).value
  {
    if s != [] {
      RewriteAt(f, s[1..]);
      assert forall i :: 1 <= i < |s| ==> s[i] == s[1..][i - 1];
    }
  }

  /** What transformPostEncrypt does with one rune: a digit becomes its table letter, a letter
      stays, anything else is rejected. */
  function PostEncryptRune(u: CharClasses, r: char): Option<char> {
    if r in PostEncryptCipherMap then Some(PostEncryptCipherMap[r])
    else if u.isLetter(r) then Some(r)
    else None
  }

  /** What transformPreDecrypt does with one rune: a substitute becomes its digit, another
      letter stays, anything else is rejected. */
  function PreDecryptRune(u: CharClasses, r: char): Option<char> {
    if r in PreDecryptCipherMap then Some(PreDecryptCipherMap[r])
    else if u.isLetter(r) then Some(r)
    else None
  }

  /** The result transformPostEncrypt returns for `s`. */
  function PostEncrypted(u: CharClasses, s: string): Outcome {
    match Rewrite(r => PostEncryptRune(u, r), s)
    case Some(t) => Outcome(t, None)
    case None => Fail(InvalidCipherOutput)
  }

  /** The result transformPreDecrypt returns for `s`. */
  function PreDecrypted(u: CharClasses, s: string): Outcome {
    match Rewrite(r => PreDecryptRune(u, r), s)
    case Some(t) => Outcome(t, None)
    case None => Fail(NotLetterInput)
  }

  /* ---------------------------------------------------------------------------------------- */
  /* Properties of the transforms                                                              */

  lemma PostEncryptRuneIs(u: CharClasses, c: char)
    requires Sound(u)
    ensures PostEncryptRune(u, c).Some? <==> IsAsciiDigit(c) || u.isLetter(c)
    ensures PostEncryptRune(u, c).Some? ==>
      && PostEncryptRune(u, c).value == (if IsAsciiDigit(c) then PostEncryptCipherMap[c] else c)
      && u.isLetter(PostEncryptRune(u, c).value)
      && !IsAsciiDigit(PostEncryptRune(u, c).value)
  {
  }

  lemma PreDecryptRuneIs(u: CharClasses, c: char)
    requires Sound(u)
    ensures PreDecryptRune(u, c).Some? <==> u.isLetter(c)
    ensures PreDecryptRune(u, c).Some? ==>
      && PreDecryptRune(u, c).value == (if IsSubstitute(c) then PreDecryptCipherMap[c] else c)
      && Radix52Symbol(u, PreDecryptRune(u, c).value)
  {
  }

  /** transformPostEncrypt fails, with the empty string, exactly when some rune is neither an
      ASCII digit nor a letter. */
  lemma PostEncryptFailsIff(u: CharClasses, s: string)
    requires Sound(u)
    ensures PostEncrypted(u, s).err.Some? <==>
      exists i :: 0 <= i < |s| && !IsAsciiDigit(s[i]) && !u.isLetter(s[i])
    ensures PostEncrypted(u, s).err.Some? ==> PostEncrypted(u, s) == Fail(InvalidCipherOutput)
  {
    RewriteAt(r => PostEncryptRune(u, r), s);
    forall i | 0 <= i < |s| { PostEncryptRuneIs(u, s[i]); }
  }

  /** A successful transformPostEncrypt keeps the length, turns each ASCII digit into its table
      letter and copies each letter; its output is all letters with no ASCII digit. */
  lemma PostEncryptOutput(u: CharClasses, s: string)
    requires Sound(u)
    requires PostEncrypted(u, s).err.None?
    ensures var t := PostEncrypted(u, s).value;
      && |t| == |s|
      && (forall i :: 0 <= i < |s| ==>
            t[i] == if IsAsciiDigit(s[i]) then PostEncryptCipherMap[s[i]] else s[i])
      && AllLetters(u, t)
      && NoAsciiDigit(t)
  {
    RewriteAt(r => PostEncryptRune(u, r), s);
    forall i | 0 <= i < |s| { PostEncryptRuneIs(u, s[i]); }
  }

  /** transformPreDecrypt fails, with the empty string, exactly when some rune is not a letter;
      the table letters are all letters, so the table never accepts a non-letter. */
  lemma PreDecryptFailsIff(u: CharClasses, s: string)
    requires Sound(u)
    ensures PreDecrypted(u, s).err.Some? <==> !AllLetters(u, s)
    ensures PreDecrypted(u, s).err.Some? ==> PreDecrypted(u, s) == Fail(NotLetterInput)
  {
    RewriteAt(r => PreDecryptRune(u, r), s);
    forall i | 0 <= i < |s| { PreDecryptRuneIs(u, s[i]); }
  }

  /** A successful transformPreDecrypt keeps the length, turns each substitute into its digit and
      copies every other letter; its output holds no substitute, only radix-52 symbols. */
  lemma PreDecryptOutput(u: CharClasses, s: string)
    requires Sound(u)
    requires PreDecrypted(u, s).err.None?
    ensures var t := PreDecrypted(u, s).value;
      && |t| == |s|
      && (forall i :: 0 <= i < |s| ==>
            t[i] == if IsSubstitute(s[i]) then PreDecryptCipherMap[s[i]] else s[i])
      && Radix52Text(u, t)
  {
    RewriteAt(r => PreDecryptRune(u, r), s);
    forall i | 0 <= i < |s| { PreDecryptRuneIs(u, s[i]); }
  }

  /** Undoing the substitution recovers whatever the radix-52 primitive emitted. */
  lemma PreDecryptAfterPostEncrypt(u: CharClasses, s: string)
    requires Sound(u)
    requires Radix52Text(u, s)
    ensures PostEncrypted(u, s).err.None?
    ensures PreDecrypted(u, PostEncrypted(u, s).value) == Outcome(s, None)
  {
    PostEncryptFailsIff(u, s);
    PostEncryptOutput(u, s);
    var t := PostEncrypted(u, s).value;
    PreDecryptFailsIff(u, t);
    PreDecryptOutput(u, t);
    CipherMapsAreInverse();
    var back := PreDecrypted(u, t).value;
    forall i | 0 <= i < |s| ensures back[i] == s[i] {
      if IsAsciiDigit(s[i]) {
        assert IsSubstitute(t[i]);
      } else {
        assert !IsSubstitute(t[i]);
      }
    }
  }

  /** Applying the substitution again to a pre-decrypted ciphertext gives the ciphertext back. */
  lemma PostEncryptAfterPreDecrypt(u: CharClasses, t: string)
    requires Sound(u)
    requires AllLetters(u, t)
    ensures PreDecrypted(u, t).err.None?
    ensures PostEncrypted(u, PreDecrypted(u, t).value) == Outcome(t, None)
  {
    PreDecryptFailsIff(u, t);
    PreDecryptOutput(u, t);
    var s := PreDecrypted(u, t).value;
    PostEncryptFailsIff(u, s);
    PostEncryptOutput(u, s);
    CipherMapsAreInverse();
    var back := PostEncrypted(u, s).value;
    forall i | 0 <= i < |t| ensures back[i] == t[i] {
      if IsSubstitute(t[i]) {
        assert IsAsciiDigit(s[i]);
      } else {
        assert !IsAsciiDigit(t[i]);
      }
    }
  }

  /* ---------------------------------------------------------------------------------------- */
  /* The transforms and the validator as the source runs them                                  */

  /** transformPostEncrypt: after encryption, replace every digit by its letter. */
  method TransformPostEncrypt(u: CharClasses, x: string) returns (r: Outcome)
    ensures r == PostEncrypted(u, x)
  {
    ghost var f := (c: char) => PostEncryptRune(u, c);
    var sb := "";
    var i := 0;
    while i < |x|
      invariant 0 <= i <= |x|
      invariant |sb| == i
      invariant forall j :: 0 <= j < i ==> f(x[j]) == Some(sb[j])
    {
      var c := x[i];
      if c in PostEncryptCipherMap {
        sb := sb + [PostEncryptCipherMap[c]];
      } else if u.isLetter(c) {
        sb := sb + [c];
      } else {
        RewriteAt(f, x);
        return Fail(InvalidCipherOutput);
      }
      i := i + 1;
    }
    RewriteAt(f, x);
    assert Rewrite(f, x).value == sb;
    return Outcome(sb, None);
  }

  /** transformPreDecrypt: before decryption, replace every substitute letter by its digit. */
  method TransformPreDecrypt(u: CharClasses, x: string) returns (r: Outcome)
    ensures r == PreDecrypted(u, x)
  {
    ghost var f := (c: char) => PreDecryptRune(u, c);
    var sb := "";
    var i := 0;
    while i < |x|
      invariant 0 <= i <= |x|
      invariant |sb| == i
      invariant forall j :: 0 <= j < i ==> f(x[j]) == Some(sb[j])
    {
      var c := x[i];
      if c in PreDecryptCipherMap {
        sb := sb + [PreDecryptCipherMap[c]];
      } else if u.isLetter(c) {
        sb := sb + [c];
      } else {
        RewriteAt(f, x);
        return Fail(NotLetterInput);
      }
      i := i + 1;
    }
    RewriteAt(f, x);
    assert Rewrite(f, x).value == sb;
    return Outcome(sb, None);
  }

  /** isNumeric: stops at the first rune that is not a number. */
  method IsNumeric(u: CharClasses, x: string) returns (b: bool)
    ensures b <==> Numeric(u, x)
    ensures x == [] ==> b
  {
    for i := 0 to |x|
      invariant forall j :: 0 <= j < i ==> u.isNumber(x[j])
    {
      if !u.isNumber(x[i]) {
        return false;
      }
    }
    return true;
  }
}
