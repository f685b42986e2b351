/** Base64 VLQ numbers as the source map builder reads and writes them, in the 32-bit
    integer arithmetic of JavaScript's bit operators. */
module Vlq {
  import opened Alphabet

  type Byte = x: int | 0 <= x < 256

  const SEMICOLON: Byte := 59
  const COMMA: Byte := 44
  const NEWLINE: Byte := 10
  const INVALID := 255

  /** The table `integerToChar`. */
  function IntegerToChar(i: int): Byte
    requires 0 <= i < 64
  {
    if i < 26 then 65 + i
    else if i < 52 then 97 + (i - 26)
    else if i < 62 then 48 + (i - 52)
    else if i == 62 then 43 else 47
  }

  /** The table `charToInteger`, which also has the padding character '=', as number 64. */
  function CharToInteger(b: Byte): int {
    if 65 <= b <= 90 then b - 65
    else if 97 <= b <= 122 then b - 97 + 26
    else if 48 <= b <= 57 then b - 48 + 52
    else if b == 43 then 62
    else if b == 47 then 63
    else if b == 61 then 64
    else INVALID
  }

  /** The tables are the alphabet: the i-th digit is written as its i-th character, and a
      byte is read as its position there, the padding character as 64 and every other byte
      as 255. */
  lemma TablesAreAlphabet(i: nat, b: Byte)
    requires i < 64
    ensures |ALPHABET| == 64 && IntegerToChar(i) as char == ALPHABET[i]
    ensures CharToInteger(b) == i <==> ALPHABET[i] == b as char
    ensures CharToInteger(b) < 64 <==> b as char in ALPHABET
    ensures b as char !in ALPHABET ==> CharToInteger(b) == if b as char == '=' then 64 else 255
  {
    AlphabetAt(i);
    DigitIsPosition(b, i);
    TableIsDigit(b);
  }

  lemma PaddedAt(i: nat)
    requires i < 65
    ensures |PADDED| == 65 && PADDED[i] as int == if i < 64 then IntegerToChar(i) else 61
  {
    AlphabetAt(if i < 64 then i else 0);
  }

  /** What is in `charToInteger` at a byte once the first characters are entered. */
  predicate Entered(entry: int, b: Byte, upTo: nat) {
    entry == if CharToInteger(b) < upTo then CharToInteger(b) else INVALID
  }

  lemma EnteredNext(entry: int, b: Byte, i: nat, c: Byte)
    requires i < 65 && c == if i < 64 then IntegerToChar(i) else 61
    requires Entered(entry, b, i)
    ensures Entered(if b == c then i else entry, b, i + 1)
  {
  }

  /** The tables as the program fills them, character by character; the padding
      character is beyond the end of `integerToChar`, where a write has no effect. */
  method MakeTables() returns (charToInteger: array<int>, integerToChar: array<Byte>)
    ensures charToInteger.Length == 256 && forall b: Byte :: charToInteger[b] == CharToInteger(b)
    ensures integerToChar.Length == 64 && forall i :: 0 <= i < 64 ==> integerToChar[i] == IntegerToChar(i)
  {
    charToInteger := new int[256](_ => INVALID);
    integerToChar := new Byte[64](_ => 0);
    for i := 0 to 65
      invariant fresh(charToInteger) && fresh(integerToChar)
      invariant charToInteger.Length == 256 && integerToChar.Length == 64
      invariant forall b: Byte :: Entered(charToInteger[b], b, i)
      invariant forall k :: 0 <= k < i && k < 64 ==> integerToChar[k] == IntegerToChar(k)
    {
      PaddedAt(i);
      var c: Byte := PADDED[i] as int;
      ghost var entries := charToInteger[..];
      forall b: Byte ensures Entered(if b == c then i else entries[b], b, i + 1) {
        EnteredNext(entries[b], b, i, c);
      }
      charToInteger[c] := i;
      if i < 64 { integerToChar[i] := c; }
    }
  }

  /** The builder's table agrees with the digits of the alphabet. */
  lemma TableIsDigit(b: Byte)
    ensures CharToInteger(b) < 64 ==> DigitOf(b) == CharToInteger(b)
    ensures CharToInteger(b) >= 64 ==> DigitOf(b) == 64
    ensures CharToInteger(b) >= 64 ==> CharToInteger(b) == if b as char == '=' then 64 else 255
  {
  }

  /** The separators and the end of a line. */
  lemma Separators()
    ensures SEMICOLON as char == ';' && COMMA as char == ',' && NEWLINE as char == '\n'
  {
  }

  lemma CharRoundTrip(i: int)
    requires 0 <= i < 64
    ensures CharToInteger(IntegerToChar(i)) == i
    ensures IntegerToChar(i) != SEMICOLON && IntegerToChar(i) != COMMA
  {
  }

  // ---------------------------------------------------------------- 32-bit operators

  const TWO_31 := 0x8000_0000
  const TWO_32 := 0x1_0000_0000
  const TWO_30 := 0x4000_0000

  function ToInt32(x: int): (r: int)
    ensures -TWO_31 <= r < TWO_31
    ensures -TWO_31 <= x < TWO_31 ==> r == x
  {
    if -TWO_31 <= x < TWO_31 then x else (x + TWO_31) % TWO_32 - TWO_31
  }

  function Pow2(n: nat): int {
    if n == 0 then 1 else 2 * Pow2(n - 1)
  }

  function Pow32(n: nat): (r: int)
    ensures r >= 1
  {
    if n == 0 then 1 else 32 * Pow32(n - 1)
  }

  /** `x << s`: the shift count is taken modulo 32. */
  function Shl(x: int, s: nat): int {
    ToInt32(x * Pow2(s % 32))
  }

  /** `x >> 1` and `x >> 5` round down. */
  function Sar1(x: int): int {
    ToInt32(x) / 2
  }

  function Sar5(x: int): int {
    ToInt32(x) / 32
  }

  function And31(x: int): int {
    ToInt32(x) % 32
  }

  function And1(x: int): int {
    ToInt32(x) % 2
  }

  /** What the operators are: 32-bit wrap-around, shift counts modulo 32, and the lowest
      bits split off the rest. */
  lemma Operators(x: int, s: nat)
    ensures (x - ToInt32(x)) % TWO_32 == 0
    ensures Shl(x, 0) == ToInt32(x) && Shl(x, s + 32) == Shl(x, s) && (s < 31 ==> Shl(x, s + 1) == Shl(2 * x, s))
    ensures ToInt32(x) == 32 * Sar5(x) + And31(x) && 0 <= And31(x) < 32
    ensures ToInt32(x) == 2 * Sar1(x) + And1(x) && 0 <= And1(x) < 2
  {
    Wraps(x);
    assert (s + 32) % 32 == s % 32;
    if s < 31 { DoubleShift(x, s); }
  }

  lemma Wraps(x: int)
    ensures (x - ToInt32(x)) % TWO_32 == 0
  {
  }

  lemma DoubleShift(x: int, s: nat)
    requires s < 31
    ensures Shl(x, s + 1) == Shl(2 * x, s)
  {
    Doubled(x, Pow2(s));
    assert s % 32 == s && (s + 1) % 32 == s + 1;
  }

  lemma Doubled(x: int, p: int)
    ensures x * (2 * p) == 2 * x * p
  {
  }

  // ---------------------------------------------------------------- writing

  /** The sign goes into the lowest bit: `(-num << 1) | 1` or `num << 1`. */
  function ZigZag(num: int): (v: int)
    ensures -TWO_31 <= v < TWO_31
  {
    assert Pow2(1) == 2;
    if num < 0 then Shl(-num, 1) + 1 else Shl(num, 1)
  }

  /** The digits of a 32-bit number, lowest first, each with its continuation bit. */
  function Digits(v: int): (d: seq<int>)
    requires -TWO_31 <= v < TWO_31
    ensures |d| >= 1 && forall i :: 0 <= i < |d| ==> 0 <= d[i] < 64
    decreases if v > 0 then v else 0
  {
    if Sar5(v) > 0 then [And31(v) + 32] + Digits(Sar5(v)) else [And31(v)]
  }

  function Chars(d: seq<int>): (b: seq<Byte>)
    requires forall i :: 0 <= i < |d| ==> 0 <= d[i] < 64
    ensures |b| == |d| && forall i :: 0 <= i < |d| ==> b[i] == IntegerToChar(d[i])
  {
    if d == [] then [] else [IntegerToChar(d[0])] + Chars(d[1..])
  }

  /** The bytes `addVLQ` writes. */
  function VlqBytes(num: int): seq<Byte> {
    Chars(Digits(ZigZag(num)))
  }

  // ---------------------------------------------------------------- reading

  /** Where the decode loop stands inside a number: the bits read so far. */
  datatype Partial = Partial(value: int, shift: nat)

  const FRESH := Partial(0, 0)

  predicate Continues(digit: int) {
    (digit / 32) % 2 == 1
  }

  /** `value += (digit & 31) << shift`. */
  function Accumulate(p: Partial, digit: int): int {
    p.value + Shl(And31(digit), p.shift)
  }

  /** What the loop makes of the bits once the last digit is read. */
  function UnZigZag(value: int): int {
    if And1(value) == 1 then -Sar1(value) else Sar1(value)
  }

  /** The decode loop run on one number: its value, and how many digits it took. */
  function Decode(digits: seq<int>, p: Partial): (int, nat)
    requires digits != []
  {
    if Continues(digits[0]) && |digits| > 1 then
      var (v, n) := Decode(digits[1..], Partial(Accumulate(p, digits[0]), p.shift + 5));
      (v, n + 1)
    else (UnZigZag(Accumulate(p, digits[0])), 1)
  }

  function Integers(b: seq<Byte>): (d: seq<int>)
    ensures |d| == |b| && forall i :: 0 <= i < |b| ==> d[i] == CharToInteger(b[i])
  {
    if b == [] then [] else [CharToInteger(b[0])] + Integers(b[1..])
  }

  lemma PowersAgree(k: nat)
    ensures Pow2(5 * k) == Pow32(k)
  {
    if k > 0 {
      PowersAgree(k - 1);
      var j := 5 * (k - 1);
      assert Pow2(j + 2) == 4 * Pow2(j);
      assert Pow2(j + 4) == 4 * Pow2(j + 2);
      assert 5 * k == j + 5;
    }
  }

  lemma {:induction false} BigPower(k: nat)
    ensures k >= 7 ==> Pow32(k) >= TWO_31
  {
    if k > 7 {
      BigPower(k - 1);
    } else if k == 7 {
      assert Pow32(2) == 1024 && Pow32(4) == 1024 * Pow32(2) && Pow32(6) == 1024 * Pow32(4);
    }
  }

  /** A 5-bit digit shifted into place is exact when the result fits 31 bits. */
  lemma ShiftExact(digit: int, k: nat)
    requires 0 <= digit < 32 && digit * Pow32(k) < TWO_31
    ensures Shl(digit, 5 * k) == digit * Pow32(k)
  {
    if digit == 0 {
      ShiftZero(k);
    } else {
      AtLeastOnce(digit, Pow32(k));
      BigPower(k);
      PowersAgree(k);
      ShiftSmall(digit, k, digit * Pow32(k));
    }
  }

  lemma ShiftZero(k: nat)
    ensures Shl(0, 5 * k) == 0
  {
  }

  lemma AtLeastOnce(a: nat, b: nat)
    requires a > 0
    ensures b <= a * b
  {
  }

  lemma ShiftSmall(digit: int, k: nat, product: int)
    requires k < 7 && product == digit * Pow32(k) && Pow2(5 * k) == Pow32(k) && 0 <= product < TWO_31
    ensures Shl(digit, 5 * k) == product
  {
    assert (5 * k) % 32 == 5 * k;
  }

  /** No intermediate value of the decode loop leaves the signed 32-bit range. */
  predicate StaysInRange(digits: seq<int>, p: Partial) {
    digits == [] ||
    (0 <= Accumulate(p, digits[0]) < TWO_31 &&
     (Continues(digits[0]) ==> StaysInRange(digits[1..], Partial(Accumulate(p, digits[0]), p.shift + 5))))
  }

  lemma SplitDigit(v: int, k: nat)
    requires 0 <= v < TWO_31
    ensures Pow32(k) * v == Pow32(k) * (v % 32) + Pow32(k + 1) * (v / 32)
    ensures Pow32(k) * (v % 32) >= 0 && Pow32(k + 1) * (v / 32) >= 0
  {
    var q, r := v / 32, v % 32;
    assert v == 32 * q + r;
    assert Pow32(k) * (32 * q) == (32 * Pow32(k)) * q;
  }

  lemma JoinBits(bits: int, k: nat, v: int)
    requires 0 <= v < TWO_31
    ensures (bits + Pow32(k) * (v % 32)) + Pow32(k + 1) * (v / 32) == bits + Pow32(k) * v
    ensures v / 32 == 0 ==> bits + Pow32(k) * (v % 32) == bits + Pow32(k) * v
    ensures 0 <= Pow32(k) * (v % 32) <= Pow32(k) * v
  {
    SplitDigit(v, k);
    if v / 32 == 0 { assert v % 32 == v; }
  }

  lemma DigitBits(low: int)
    requires 0 <= low < 32
    ensures And31(low) == low && !Continues(low) && And31(low + 32) == low && Continues(low + 32)
  {
  }

  lemma DigitsUnfold(v: int, low: int, rest: int)
    requires 0 <= v < TWO_31 && low == v % 32 && rest == v / 32
    ensures Digits(v) == if rest > 0 then [low + 32] + Digits(rest) else [low]
  {
  }

  lemma LowestDigit(v: int)
    requires 0 <= v < TWO_31
    ensures var d := Digits(v);
            && d[0] == v % 32 + (if v / 32 > 0 then 32 else 0)
            && And31(d[0]) == v % 32 && (Continues(d[0]) <==> v / 32 > 0)
            && d[1..] == if v / 32 > 0 then Digits(v / 32) else []
  {
    DigitBits(v % 32);
    DigitsUnfold(v, v % 32, v / 32);
  }

  /** One digit is added exactly when the sum fits 31 bits. */
  lemma AddDigit(value: int, k: nat, digit: int)
    requires 0 <= value && 0 <= digit < 64 && value + Pow32(k) * (digit % 32) < TWO_31
    ensures Accumulate(Partial(value, 5 * k), digit) == value + Pow32(k) * (digit % 32)
  {
    var low := digit % 32;
    assert And31(digit) == low;
    assert Pow32(k) * low == low * Pow32(k);
    ShiftExact(low, k);
  }

  /** Reading the digits of v on top of the bits read so far. */
  lemma {:induction false} DecodeDigits(v: int, value: int, k: nat, total: int)
    requires 0 <= v < TWO_31 && 0 <= value && total == value + Pow32(k) * v && total < TWO_31
    ensures Decode(Digits(v), Partial(value, 5 * k)) == (UnZigZag(total), |Digits(v)|)
    ensures StaysInRange(Digits(v), Partial(value, 5 * k))
    decreases v
  {
    LowestDigit(v);
    JoinBits(value, k, v);
    AddDigit(value, k, Digits(v)[0]);
    if v / 32 > 0 { DecodeDigits(v / 32, value + Pow32(k) * (v % 32), k + 1, total); }
  }

  lemma {:induction false} DigitCount(v: int, k: nat)
    requires -TWO_31 <= v < TWO_31 && v < Pow32(k) && k >= 1
    ensures |Digits(v)| <= k
    decreases k
  {
    if Sar5(v) > 0 { DigitCount(Sar5(v), k - 1); }
  }

  lemma BytesAreDigits(n: int)
    ensures Integers(VlqBytes(n)) == Digits(ZigZag(n)) && |VlqBytes(n)| == |Digits(ZigZag(n))|
  {
    var d := Digits(ZigZag(n));
    forall i | 0 <= i < |d| ensures Integers(Chars(d))[i] == d[i] { CharRoundTrip(d[i]); }
  }

  lemma SmallZigZag(n: int)
    requires -TWO_30 < n < TWO_30
    ensures ZigZag(n) == (if n < 0 then -2 * n + 1 else 2 * n) && UnZigZag(ZigZag(n)) == n
  {
    assert Pow2(1) == 2;
  }

  /** Whatever is read back has an absolute value below 2^30. */
  lemma DecodedIsSmall(v: int)
    requires -TWO_31 <= v < TWO_31
    ensures -TWO_30 < Decode(Digits(v), FRESH).0 < TWO_30
  {
    assert Pow32(0) == 1;
    if v >= 0 {
      DecodeDigits(v, 0, 0, v);
    } else {
      assert Digits(v) == [And31(v)];
      ShiftExact(And31(v), 0);
    }
  }

  /** The round trip, exactly: a number written by `addVLQ` is read back, digit for
      digit, if and only if its absolute value is below 2^30.  At most seven digits
      are written, and within the bound no step leaves the signed 32-bit range. */
  lemma RoundTrip(n: int)
    ensures 1 <= |VlqBytes(n)| <= 7
    ensures Decode(Integers(VlqBytes(n)), FRESH) == (n, |VlqBytes(n)|) <==> -TWO_30 < n < TWO_30
    ensures -TWO_30 < n < TWO_30 ==> StaysInRange(Integers(VlqBytes(n)), FRESH)
  {
    BytesAreDigits(n);
    BigPower(7);
    DigitCount(ZigZag(n), 7);
    if -TWO_30 < n < TWO_30 {
      SmallZigZag(n);
      assert Pow32(0) == 1;
      DecodeDigits(ZigZag(n), 0, 0, ZigZag(n));
    } else {
      DecodedIsSmall(ZigZag(n));
    }
  }

  lemma LostZigZag()
    ensures ZigZag(TWO_30) == -TWO_31
  {
    assert Pow2(1) == 2;
  }

  lemma LostDigits()
    ensures Chars(Digits(-TWO_31)) == [65]
  {
    assert Digits(-TWO_31) == [0];
  }

  lemma ZeroDigits()
    ensures VlqBytes(0) == [65]
  {
    assert Digits(0) == [0];
  }

  /** The first number that is lost is written like zero, as the single byte 'A'. */
  lemma FirstNumberLost()
    ensures VlqBytes(TWO_30) == [65] && VlqBytes(0) == [65]
    ensures Decode(Integers(VlqBytes(TWO_30)), FRESH) == (0, 1)
  {
    LostZigZag();
    LostDigits();
    ZeroDigits();
    RoundTrip(0);
  }
}
