/** The digits of base 64: the alphabet of section 4 of RFC 4648, in its order. */
module Alphabet {
  const UPPER := "ABCDEFGHIJKLMNOPQRSTUVWXYZ"
  const LOWER := "abcdefghijklmnopqrstuvwxyz"
  const FIGURES := "0123456789"
  const SIGNS := "+/"
  const ALPHABET := UPPER + LOWER + FIGURES + SIGNS

  /** The alphabet with the padding character, as the tables are filled from it. */
  const PADDED := ALPHABET + "="

  /** The digit a byte stands for; 64 when it stands for none. */
  function DigitOf(b: int): nat
    requires 0 <= b < 256
  {
    var c := b as char;
    if 'A' <= c <= 'Z' then c as int - 'A' as int
    else if 'a' <= c <= 'z' then c as int - 'a' as int + 26
    else if '0' <= c <= '9' then c as int - '0' as int + 52
    else if c == '+' then 62
    else if c == '/' then 63
    else 64
  }

  lemma UpperAt(i: nat)
    requires i < 26
    ensures |UPPER| == 26 && UPPER[i] as int == 65 + i
  {
  }

  lemma LowerAt(i: nat)
    requires i < 26
    ensures |LOWER| == 26 && LOWER[i] as int == 97 + i
  {
  }

  lemma FigureAt(i: nat)
    requires i < 10
    ensures |FIGURES| == 10 && FIGURES[i] as int == 48 + i
  {
  }

  lemma Lengths()
    ensures |UPPER| == 26 && |LOWER| == 26 && |FIGURES| == 10 && |SIGNS| == 2 && |ALPHABET| == 64
  {
    UpperAt(0);
    LowerAt(0);
    FigureAt(0);
  }

  /** The codes of the characters in order. */
  lemma AlphabetAt(i: nat)
    requires i < 64
    ensures |ALPHABET| == 64
    ensures ALPHABET[i] as int ==
              if i < 26 then 65 + i else if i < 52 then 97 + (i - 26) else if i < 62 then 48 + (i - 52)
              else if i == 62 then 43 else 47
  {
    Lengths();
    if i < 26 { UpperAt(i); } else if i < 52 { LowerAt(i - 26); } else if i < 62 { FigureAt(i - 52); }
  }

  /** The digit of a byte is its position in the alphabet. */
  lemma DigitIsPosition(b: int, i: nat)
    requires 0 <= b < 256 && i < 64
    ensures |ALPHABET| == 64 && (DigitOf(b) == i <==> ALPHABET[i] == b as char)
    ensures DigitOf(b) < 64 <==> b as char in ALPHABET
    ensures DigitOf(b) <= 64
  {
    AlphabetAt(i);
    if DigitOf(b) < 64 { AlphabetAt(DigitOf(b)); }
    if b as char in ALPHABET {
      var k :| 0 <= k < |ALPHABET| && ALPHABET[k] == b as char;
      AlphabetAt(k);
    }
  }
}
