/** The character sets and pattern list every other module draws on. */
module Config {

  /** Python's string.ascii_lowercase. */
  const Lowercase: string := "abcdefghijklmnopqrstuvwxyz"
  /** Python's string.ascii_uppercase. */
  const Uppercase: string := "ABCDEFGHIJKLMNOPQRSTUVWXYZ"
  /** Python's string.digits. */
  const Digits: string := "0123456789"
  /** Python's string.punctuation: the 32 printable ASCII symbols. */
  const Punctuation: string := "!\"#$%&'()*+,-./:;<=>?@[\\]^_`{|}~"

  /** Characters that are easily confused with one another when read. */
  const Ambiguous: string := "lIO01"
  /** The ambiguous characters of each class: the lower-case, upper-case and digit ones. */
  const AmbiguousLower: string := "l"
  const AmbiguousUpper: string := "IO"
  const AmbiguousDigits: string := "01"

  /** Keyboard runs and dictionary words a generated password must not contain. */
  const CommonPatterns: seq<string> := [
    "password", "123456", "qwerty", "asdfgh", "zxcvbn", "qazwsx",
    "password123", "admin", "abcdef", "111111", "222222", "333333",
    "john", "mary"
  ]

  /** How many times a rejected candidate is regenerated. */
  const MaxAttempts: nat := 100

  lemma LowercaseIsRange(c: char)
    ensures c in Lowercase <==> 'a' <= c <= 'z'
  {
    if 'a' <= c <= 'z' { assert Lowercase[c as int - 'a' as int] == c; }
  }

  lemma UppercaseIsRange(c: char)
    ensures c in Uppercase <==> 'A' <= c <= 'Z'
  {
    if 'A' <= c <= 'Z' { assert Uppercase[c as int - 'A' as int] == c; }
  }

  lemma DigitsIsRange(c: char)
    ensures c in Digits <==> '0' <= c <= '9'
  {
    if '0' <= c <= '9' { assert Digits[c as int - '0' as int] == c; }
  }

  /** Punctuation lies outside the three letter and digit ranges. */
  lemma PunctuationOutsideRanges(c: char)
    ensures c in Punctuation ==> !('a' <= c <= 'z') && !('A' <= c <= 'Z') && !('0' <= c <= '9')
  {
  }
}
