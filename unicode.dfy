/** The two character categories of Go's `unicode` package that the token cipher consults.
    Their Unicode tables are not part of this model: a `CharClasses` value stands for them, and
    `Sound` lists the only facts about them that the proofs rely on. */
module Unicode {

  /** `isLetter` stands for `unicode.IsLetter`, `isNumber` for `unicode.IsNumber`. */
  datatype CharClasses = CharClasses(isLetter: char -> bool, isNumber: char -> bool)

  predicate IsAsciiDigit(c: char) {
    '0' <= c <= '9'
  }

  predicate IsAsciiLetter(c: char) {
    'A' <= c <= 'Z' || 'a' <= c <= 'z'
  }

  /** What Unicode guarantees about the categories and the proofs use: ASCII digits are numbers,
      ASCII letters are letters, and no character is both a letter and a number. */
  ghost predicate Sound(u: CharClasses) {
    && (forall c :: IsAsciiDigit(c) ==> u.isNumber(c))
    && (forall c :: IsAsciiLetter(c) ==> u.isLetter(c))
    && (forall c :: !(u.isLetter(c) && u.isNumber(c)))
  }

  /** Every character of `s` is a letter. */
  predicate AllLetters(u: CharClasses, s: string) {
    forall i :: 0 <= i < |s| ==> u.isLetter(s[i])
  }

  /** No character of `s` is an ASCII digit. */
  predicate NoAsciiDigit(s: string) {
    forall i :: 0 <= i < |s| ==> !IsAsciiDigit(s[i])
  }

  /** The ASCII-only categories satisfy `Sound`, so the facts assumed of the real tables are
      consistent. */
  lemma AsciiClassesAreSound()
    ensures Sound(CharClasses(IsAsciiLetter, IsAsciiDigit))
  {
  }
}
