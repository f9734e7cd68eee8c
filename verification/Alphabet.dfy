/** The ASCII letters and digits, written out. */
module Alphabet {

  const LOWER: string := "abcdefghijklmnopqrstuvwxyz"
  const UPPER: string := "ABCDEFGHIJKLMNOPQRSTUVWXYZ"
  const DIGITS: string := "0123456789"

  lemma LetterAt(k: nat)
    requires k < 26
    ensures LOWER[k] as int == 'a' as int + k
    ensures UPPER[k] as int == 'A' as int + k
  {
  }

  lemma SmallLetters(c: char)
    ensures c in LOWER <==> 'a' <= c <= 'z'
  {
    if 'a' <= c <= 'z' {
      LetterAt(c as int - 'a' as int);
    }
  }

  lemma CapitalLetters(c: char)
    ensures c in UPPER <==> 'A' <= c <= 'Z'
  {
    if 'A' <= c <= 'Z' {
      LetterAt(c as int - 'A' as int);
    }
  }

  lemma Digits(c: char)
    ensures c in DIGITS <==> '0' <= c <= '9'
  {
  }
}
