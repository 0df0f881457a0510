# ff3Token in Dafny

A model of `ff3Token`, a small Go package that wraps an FF3-1 format-preserving cipher
(NIST SP 800-38G Rev. 1) of radix 52. The wrapper keeps plaintexts and ciphertexts apart.
Encrypt accepts only numeric strings. It rewrites every digit the cipher emits to one of the
letters `Q`..`Z`, so a ciphertext is all letters. Decrypt accepts only letters. It rewrites
`Q`..`Z` back to digits before calling the cipher, and it insists that the decryption is numeric.

Files:

- `wrappers.dfy` (`Wrappers`): `Option`.
- `unicode.dfy` (`Unicode`): `CharClasses` stands for Go's `unicode.IsLetter` and
  `unicode.IsNumber`. Every operation takes one as the parameter `u`. `Sound(u)` lists the
  only facts the proofs use: ASCII digits are numbers, ASCII letters are letters, and no rune
  is both.
- `errors.dfy` (`Errors`): the five error kinds with their exact messages. `Outcome` is Go's
  `(string, error)` pair, so "every error path returns the empty string" can be stated.
- `ff3_token_internal.dfy` (`TokenInternal`, from `ff3TokenInternal.go`): the two constant
  tables as constant maps, and `transformPostEncrypt`, `transformPreDecrypt` and `isNumeric`.
  Each of the three functions is a method with the source's loop and early return, proved equal
  to a specification function (`PostEncrypted`, `PreDecrypted`, `Numeric`). The lemmas are
  proved about those functions.
- `ff3_token.dfy` (`Token`, from `ff3Token.go`): `Cipher` is a value (the Go receiver is a
  value and is never changed). `Encrypt`, `Decrypt` and `NewCipher` are functions. The FF3-1
  primitive is a datatype `Ff3` of two functions: encrypt and decrypt, each taking the tweak on
  every call. What the wrapper relies on from the primitive is written as ghost predicates.
  These are `DecryptInvertsEncrypt`, `EncryptInvertsDecrypt`, `EncryptPreservesLength` and
  `EmitsRadix52`. They appear as preconditions of the lemmas that need them.

Two points about the source that the model follows:

- `isNumeric` (`ff3TokenInternal.go:73-80`) tests `unicode.IsNumber`. So it also accepts
  non-ASCII numeric runes such as Arabic-Indic digits or vulgar fractions, which the `[0-9]*`
  regex suggested at `ff3TokenInternal.go:72` would not. `Numeric` is the `unicode.IsNumber` test.
- The comment at `ff3Token.go:18` calls the radix-52 alphabet `[a-zA-Z]`. That cannot be the
  primitive's alphabet, because numeric plaintext is handed to it unchanged. The model takes
  the alphabet to be the first 52 digits of Go's `math/big` order, `0-9a-zA-P`. In that order
  the ten symbols after the first 52 are exactly `Q`..`Z`. This is why "a radix of 52 matters"
  (`ff3TokenInternal.go:9`). `EmitsRadix52Prefix` states that the primitive emits only those 52
  symbols, and `Radix52PrefixMeetsAssumption` proves it implies `EmitsRadix52`, the weaker
  assumption the round trip uses: ASCII digits and letters other than `Q`..`Z`. The library's
  source is not part of this model, so the alphabet order itself is not checked.

## Model

| member | source | states |
|---|---|---|
| `TokenInternal.CipherMapsAreInverse` | ff3TokenInternal.go:10-35 | the post-encrypt table's keys are exactly the ASCII digits and the pre-decrypt table's keys exactly `Q`..`Z`; each table undoes the other on its ten entries, and both are injective |
| `TokenInternal.RewriteAt` | ff3TokenInternal.go:40-49 | a rune-by-rune rewrite with early rejection succeeds iff every rune is accepted, and then has the input's length with each rune rewritten in place |
| `TokenInternal.PostEncryptRuneIs` | ff3TokenInternal.go:41-47 | one rune is accepted iff it is an ASCII digit or a letter; a digit becomes its table letter, a letter is copied, and the result is a letter that is not an ASCII digit |
| `TokenInternal.PreDecryptRuneIs` | ff3TokenInternal.go:56-62 | one rune is accepted iff it is a letter; `Q`..`Z` become their digits, other letters are copied, and the result is a radix-52 symbol |
| `TokenInternal.TransformPostEncrypt` | ff3TokenInternal.go:38-50 | the loop with its early return yields exactly the post-encrypt transform `PostEncrypted` |
| `TokenInternal.TransformPreDecrypt` | ff3TokenInternal.go:53-65 | the loop with its early return yields exactly the pre-decrypt transform `PreDecrypted` |
| `TokenInternal.IsNumeric` | ff3TokenInternal.go:73-80 | returns true iff every rune is a number, stopping at the first that is not; true on the empty string |
| `TokenInternal.PostEncryptFailsIff` | ff3TokenInternal.go:45-47 | the post-encrypt transform fails iff some rune is neither an ASCII digit nor a letter, and then returns `""` with "ff3 encryption produced invalid output" |
| `TokenInternal.PostEncryptOutput` | ff3TokenInternal.go:38-50 | on success the output keeps the length, maps each ASCII digit through the table, copies each letter, is all letters and holds no ASCII digit |
| `TokenInternal.PreDecryptFailsIff` | ff3TokenInternal.go:53-65 | the pre-decrypt transform fails iff some rune is not a letter, and then returns `""` with "invalid input sent to Decrypt" |
| `TokenInternal.PreDecryptOutput` | ff3TokenInternal.go:53-65 | on success the output keeps the length, maps `Q`..`Z` to `0`..`9`, copies other letters, and holds only ASCII digits and letters other than `Q`..`Z` |
| `TokenInternal.PreDecryptAfterPostEncrypt` | ff3TokenInternal.go:11-65 | for a string of ASCII digits and letters outside `Q`..`Z`, post-encrypt succeeds and pre-decrypt of its output gives the string back |
| `TokenInternal.PostEncryptAfterPreDecrypt` | ff3TokenInternal.go:11-65 | for an all-letter string, pre-decrypt succeeds and post-encrypt of its output gives the string back |
| `Token.RadixLengthAvoidsSubstitutes` | ff3Token.go:15-18 | the first 52 digits of the `0-9a-zA-Z` order are distinct radix-52 symbols, and the ten after them are exactly `Q`..`Z` |
| `Token.Radix52PrefixMeetsAssumption` | ff3Token.go:15-20 | a primitive built with radix 52 that emits only the first 52 symbols of the `0-9a-zA-Z` order emits only ASCII digits and letters other than `Q`..`Z`, so the round trip's alphabet assumption holds for it |
| `Token.NewCipher` | ff3Token.go:19-22 | the primitive is built from the key, the tweak and radix 52; the cipher keeps that tweak; the constructor's error is returned beside the cipher |
| `Token.Cipher.Encrypt` | ff3Token.go:24-36 | every failure returns `""`; a success means the plaintext was numeric and the primitive succeeded |
| `Token.Cipher.Decrypt` | ff3Token.go:38-55 | every failure returns `""`, including the early return of the transform's result; a success is always numeric |
| `Token.EncryptRejectsNonNumeric` | ff3Token.go:27-29 | a non-numeric plaintext gets `""` and "invalid input sent to Encrypt (must be numeric)", the same for every primitive and tweak, so the primitive is not consulted |
| `Token.EncryptRejectsTrailingLetter` | ff3Token_test.go:40-47 | `"414700000000123x"` is refused by Encrypt with "invalid input sent to Encrypt (must be numeric)" |
| `Token.EncryptPropagatesLibraryError` | ff3Token.go:31-34 | an error of the primitive's encryption is returned unchanged with `""` |
| `Token.EncryptOutputIsCiphertext` | ff3Token.go:24-36 | after a successful primitive call Encrypt fails iff the primitive emitted a rune that is neither digit nor letter; a ciphertext is all letters with no ASCII digit, as long as the plaintext when the primitive keeps lengths |
| `Token.EncryptOutputIsAsciiLetters` | ff3Token.go:24-35 | when the primitive emits only the first 52 symbols of the `0-9a-zA-Z` order, every ciphertext from Encrypt is made of ASCII letters `[A-Za-z]` only |
| `Token.DecryptRejectsNonLetters` | ff3Token.go:42-45 | a ciphertext holding a non-letter gets `""` and "invalid input sent to Decrypt", the same for every primitive and tweak |
| `Token.DecryptFailures` | ff3Token.go:46-54 | for an all-letter ciphertext, the primitive's error is returned unchanged with `""`, a non-numeric decryption gives "Decrypt failed to produce numeric output", and a numeric one is returned |
| `Token.DecryptAfterEncrypt` | ff3Token.go:26-55 | if the primitive's decryption undoes its encryption and it emits only radix-52 symbols, Decrypt(Encrypt(X)) == X for every numeric X the primitive encrypts |
| `Token.EncryptAfterDecrypt` | ff3Token.go:26-55 | if the primitive's encryption undoes its decryption, Encrypt(Decrypt(Y)) == Y for every Y that Decrypt accepts |
| `Token.DomainsAreSeparate` | ff3Token.go:24-40 | a non-empty ciphertext from Encrypt is never numeric and a non-empty plaintext from Decrypt is never all letters |
| `Token.OnlyBoundTweakMatters` | ff3Token.go:31-46 | Encrypt and Decrypt depend on the primitive only through its calls with the tweak bound in the cipher |

## Left out

- The FF3-1 primitive of `github.com/ubiqsecurity/ubiq-fpe-go` (AES-based Feistel rounds, numeral conversion, key/tweak/length checks). It is a foreign, cryptographic library. It appears only as the functions of `Ff3` and `Ff3Constructor`, and its errors are opaque `Library(message)` values.
- The concrete ciphertexts of the tests. They depend on AES output. The rejection of `"414700000000123x"` and the round trip they illustrate are kept. The empty-string cases only show the library's own length error, which `EncryptPropagatesLibraryError` and `DecryptFailures` cover.
- The Unicode category tables behind `unicode.IsLetter` and `unicode.IsNumber`. They are abstract, constrained only by `Sound`.
- Go's UTF-8 decoding in `range` over a string. An invalid byte becomes U+FFFD there. Strings are modelled as sequences of runes.
- Decryption length is not assumed or proved. No source promise depends on it.
- The `testing` harness, hex decoding of keys, benchmarks and the Example functions.
- NewCipher: the Go function returns the `Cipher` even when the library's constructor fails (`ff3Token.go:20-21`), and that cipher then holds whatever handle the library returned, by Go convention nil, so a later Encrypt or Decrypt would panic. In the model the constructor always yields a total `Ff3` whose calls compute normally; a panic is not modelled.
- Cipher: the Go struct keeps the caller's tweak slice itself, not a copy (`ff3Token.go:21`), so bytes the caller changes after `NewCipher` change the tweak passed at `ff3Token.go:31` and `:46`. `Bytes` is a value here, so `NewCipher`'s `tweak` clause and `OnlyBoundTweakMatters` speak of the bytes as they were at construction; aliasing of the slice is not modelled.
- EncryptOutputIsCiphertext: the comment at `ff3Token.go:25` promises ciphertext matching `[A-Za-z]+`. The wrapper's code alone guarantees only Unicode letters with no ASCII digit, which is what this lemma states. The ASCII-only part depends on the library's alphabet and is proved in `EncryptOutputIsAsciiLetters` under `EmitsRadix52Prefix`. The "+" (a non-empty ciphertext) is not proved: it comes only from the library's own message-length error, which the model treats as opaque.
