/**
 The four character classes a password can draw from, and their fixed ASCII
 alphabets: the contents of Python's `string.ascii_lowercase`,
 `string.ascii_uppercase`, `string.digits` and `string.punctuation`.

 Each alphabet is built from runs of consecutive code points, which keeps
 membership cheap to reason about; `AlphabetLiterals` shows the runs spell
 exactly Python's strings.
 */
module Alphabets {

  /** A character class, one per `add_*` method of the password builder. */
  datatype CharClass = Lower | Upper | Digit | Symbol

  /** The `count` consecutive ASCII characters starting at `first`. */
  function Run(first: char, count: nat): (s: string)
    requires first as int + count <= 128
    ensures |s| == count
    ensures forall i :: 0 <= i < count ==> s[i] as int == first as int + i
  {
    seq(count, i requires 0 <= i < count => (first as int + i) as char)
  }

  const AsciiLowercase: string := Run('a', 26)
  const AsciiUppercase: string := Run('A', 26)
  const Digits: string := Run('0', 10)
  /** The 32 printable ASCII characters that are neither letters, digits nor space. */
  const Punctuation: string := Run('!', 15) + Run(':', 7) + Run('[', 6) + Run('{', 4)

  /** The alphabets are exactly Python's constant strings. */
  lemma AlphabetLiterals()
    ensures AsciiLowercase == "abcdefghijklmnopqrstuvwxyz"
    ensures AsciiUppercase == "ABCDEFGHIJKLMNOPQRSTUVWXYZ"
    ensures Digits == "0123456789"
    ensures Punctuation == "!\"#$%&'()*+,-./:;<=>?@[\\]^_`{|}~"
  {
  }

  /** The alphabet a class contributes to the character set and draws its forced character from. */
  function Alphabet(c: CharClass): (a: string)
    ensures |a| > 0
  {
    match c
    case Lower => AsciiLowercase
    case Upper => AsciiUppercase
    case Digit => Digits
    case Symbol => Punctuation
  }

  /** The ASCII code range(s) of each class, an independent description of its alphabet. */
  predicate InRange(c: CharClass, ch: char)
  {
    match c
    case Lower => 'a' <= ch <= 'z'
    case Upper => 'A' <= ch <= 'Z'
    case Digit => '0' <= ch <= '9'
    case Symbol =>
      || '!' <= ch <= '/'
      || ':' <= ch <= '@'
      || '[' <= ch <= '`'
      || '{' <= ch <= '~'
  }

  /** A character is in a run exactly when its code lies in the run's span. */
  lemma RunMembership(first: char, count: nat, ch: char)
    requires first as int + count <= 128
    ensures ch in Run(first, count) <==> first as int <= ch as int < first as int + count
  {
    if first as int <= ch as int < first as int + count {
      assert Run(first, count)[ch as int - first as int] == ch;
    }
  }

  /** Each alphabet holds exactly the characters of its code range(s). */
  lemma AlphabetIsRange(c: CharClass, ch: char)
    ensures ch in Alphabet(c) <==> InRange(c, ch)
  {
    match c
    case Lower => RunMembership('a', 26, ch);
    case Upper => RunMembership('A', 26, ch);
    case Digit => RunMembership('0', 10, ch);
    case Symbol =>
      RunMembership('!', 15, ch);
      RunMembership(':', 7, ch);
      RunMembership('[', 6, ch);
      RunMembership('{', 4, ch);
  }

  /** No character belongs to two different classes. */
  lemma AlphabetsDisjoint(c: CharClass, d: CharClass, ch: char)
    requires c != d
    ensures !(ch in Alphabet(c) && ch in Alphabet(d))
  {
    AlphabetIsRange(c, ch);
    AlphabetIsRange(d, ch);
  }
}
