/** What a `mappings` string means, following section "Proposed Format" of the Source
    Map Revision 3 Proposal: lines end in ';', segments in ',', and a segment is a list
    of base64 VLQ numbers, each relative to the previous value of its field.  This
    reader knows nothing about how the builder works; its numbers are unbounded. */
module SourceMapFormat {
  import opened Prelude
  import opened Alphabet
  import opened Vlq

  datatype Origin = Origin(source: int, line: int, column: int)

  datatype Segment = Segment(column: int, origin: Option<Origin>)

  /** A reader in the middle of a string.  `fields` numbers of the current segment have
      been read; `bits` and `digits` hold the number being read. */
  datatype Reader = Reader(
    ok: bool,
    lines: seq<seq<Segment>>,
    current: seq<Segment>,
    fields: nat,
    column: int,
    source: int,
    line: int,
    sourceColumn: int,
    bits: int,
    digits: nat)

  const START := Reader(true, [], [], 0, 0, 0, 0, 0, 0, 0)

  /** Positions are below 2^30; a source index must name one of the sources. */
  predicate InBounds(x: int) {
    0 <= x < TWO_30
  }

  const FAILED := START.(ok := false)

  /** A number of the current segment is complete.  The fifth field, the name, is
      read and ignored. */
  function Field(r: Reader, v: int, sources: nat): Reader {
    var s := r.(fields := r.fields + 1, bits := 0, digits := 0);
    match r.fields
    case 0 => if InBounds(r.column + v) then s.(column := r.column + v) else FAILED
    case 1 => if 0 <= r.source + v < sources then s.(source := r.source + v) else FAILED
    case 2 => if InBounds(r.line + v) then s.(line := r.line + v) else FAILED
    case 3 => if InBounds(r.sourceColumn + v) then s.(sourceColumn := r.sourceColumn + v) else FAILED
    case 4 => s
    case _ => FAILED
  }

  /** The current segment is complete: it has one, four or five fields. */
  function EndSegment(r: Reader): Reader {
    if r.digits != 0 then FAILED
    else if r.fields == 0 then r
    else if r.fields == 1 then
      r.(fields := 0, current := r.current + [Segment(r.column, None)])
    else if r.fields == 4 || r.fields == 5 then
      r.(fields := 0, current := r.current + [Segment(r.column, Some(Origin(r.source, r.line, r.sourceColumn)))])
    else FAILED
  }

  function EndLine(r: Reader): Reader {
    r.(lines := r.lines + [r.current], current := [], column := 0)
  }

  /** The number that `bits` stands for: its lowest bit is the sign. */
  function Signed(bits: int): int {
    if bits % 2 == 1 then -(bits / 2) else bits / 2
  }

  function Feed(r: Reader, b: Byte, sources: nat): Reader {
    if !r.ok then r
    else if b as char == ';' then
      var s := EndSegment(r);
      if s.ok then EndLine(s) else s
    else if b as char == ',' then EndSegment(r)
    else
      var digit := DigitOf(b);
      if digit >= 64 then FAILED
      else
        var bits := r.bits + Pow32(r.digits) * (digit % 32);
        if digit >= 32 then r.(bits := bits, digits := r.digits + 1)
        else Field(r, Signed(bits), sources)
  }

  function FeedAll(r: Reader, b: seq<Byte>, sources: nat): Reader
    decreases |b|
  {
    if b == [] then r else FeedAll(Feed(r, b[0], sources), b[1..], sources)
  }

  /** A segment with the name of its source. */
  datatype Named = Named(column: int, origin: Option<(string, int, int)>)

  predicate SourceInRange(g: Segment, n: nat) {
    g.origin.Some? ==> 0 <= g.origin.value.source < n
  }

  ghost predicate AllInRange(line: seq<Segment>, n: nat) {
    forall i :: 0 <= i < |line| ==> SourceInRange(line[i], n)
  }

  ghost predicate LinesInRange(lines: seq<seq<Segment>>, n: nat) {
    forall i :: 0 <= i < |lines| ==> AllInRange(lines[i], n)
  }

  function Name(g: Segment, sources: seq<string>): Named
    requires SourceInRange(g, |sources|)
  {
    Named(g.column,
          if g.origin.None? then None
          else Some((sources[g.origin.value.source], g.origin.value.line, g.origin.value.column)))
  }

  ghost function NameLine(line: seq<Segment>, sources: seq<string>): (n: seq<Named>)
    requires AllInRange(line, |sources|)
    ensures |n| == |line| && forall i :: 0 <= i < |line| ==> n[i] == Name(line[i], sources)
  {
    seq(|line|, i requires 0 <= i < |line| => Name(line[i], sources))
  }

  ghost function NameLines(lines: seq<seq<Segment>>, sources: seq<string>): (n: seq<seq<Named>>)
    requires LinesInRange(lines, |sources|)
    ensures |n| == |lines| && forall i :: 0 <= i < |lines| ==> n[i] == NameLine(lines[i], sources)
  {
    seq(|lines|, i requires 0 <= i < |lines| => NameLine(lines[i], sources))
  }

  // ---------------------------------------------------------------- facts about reading

  lemma {:induction false} FeedAllJoin(r: Reader, a: seq<Byte>, b: seq<Byte>, n: nat)
    ensures FeedAll(r, a + b, n) == FeedAll(FeedAll(r, a, n), b, n)
    decreases |a|
  {
    if a == [] {
      assert a + b == b;
    } else {
      assert (a + b)[1..] == a[1..] + b;
      FeedAllJoin(Feed(r, a[0], n), a[1..], b, n);
    }
  }

  lemma {:induction false} FailedStays(r: Reader, b: seq<Byte>, n: nat)
    requires !r.ok
    ensures FeedAll(r, b, n) == r
    decreases |b|
  {
    if b != [] { FailedStays(Feed(r, b[0], n), b[1..], n); }
  }

  /** More sources do not change what a readable string means. */
  lemma {:induction false} MoreSources(r: Reader, b: seq<Byte>, n: nat, m: nat)
    requires n <= m && FeedAll(r, b, n).ok
    ensures FeedAll(r, b, m) == FeedAll(r, b, n)
    decreases |b|
  {
    if b != [] {
      var s := Feed(r, b[0], n);
      if !s.ok { FailedStays(s, b[1..], n); }
      assert Feed(r, b[0], m) == s;
      MoreSources(s, b[1..], n, m);
    }
  }

  /** Every position the reader holds is in bounds, and so are its segments. */
  ghost predicate Sane(r: Reader, n: nat) {
    && InBounds(r.column) && InBounds(r.line) && InBounds(r.sourceColumn)
    && (r.source == 0 || 0 <= r.source < n)
    && (r.fields >= 2 ==> 0 <= r.source < n)
    && LinesInRange(r.lines, n) && AllInRange(r.current, n)
    && r.bits >= 0 && r.fields <= 5
  }

  lemma FeedSane(r: Reader, b: Byte, n: nat)
    requires Sane(r, n) && Feed(r, b, n).ok
    ensures Sane(Feed(r, b, n), n)
  {
    if b == SEMICOLON || b == COMMA {
      EndSegmentSane(r, n);
    }
  }

  lemma EndSegmentSane(r: Reader, n: nat)
    requires Sane(r, n) && EndSegment(r).ok
    ensures Sane(EndSegment(r), n)
  {
  }

  lemma {:induction false} FeedAllSane(r: Reader, b: seq<Byte>, n: nat)
    requires Sane(r, n) && FeedAll(r, b, n).ok
    ensures Sane(FeedAll(r, b, n), n)
    decreases |b|
  {
    if b != [] {
      var s := Feed(r, b[0], n);
      if !s.ok { FailedStays(s, b[1..], n); }
      FeedSane(r, b[0], n);
      FeedAllSane(s, b[1..], n);
    }
  }

  lemma LowestChar(v: int)
    requires 0 <= v < TWO_31
    ensures var d := Digits(v);
            && Chars(d)[0] == IntegerToChar(if v / 32 > 0 then v % 32 + 32 else v % 32)
            && Chars(d)[1..] == if v / 32 > 0 then Chars(Digits(v / 32)) else []
  {
    LowestDigit(v);
  }

  lemma FeedDigit(r: Reader, low: int, more: bool, n: nat)
    requires r.ok && 0 <= low < 32
    ensures var bits := r.bits + Pow32(r.digits) * low;
            Feed(r, IntegerToChar(if more then low + 32 else low), n) ==
              if more then r.(bits := bits, digits := r.digits + 1) else Field(r, Signed(bits), n)
  {
    var digit := if more then low + 32 else low;
    CharRoundTrip(digit);
    TableIsDigit(IntegerToChar(digit));
    FeedTakes(r, IntegerToChar(digit), digit, n);
    assert digit % 32 == low;
  }

  /** A byte that is no separator is taken as the digit it stands for. */
  lemma FeedTakes(r: Reader, b: Byte, digit: nat, n: nat)
    requires r.ok && b != SEMICOLON && b != COMMA && DigitOf(b) == digit
    ensures var bits := r.bits + Pow32(r.digits) * (digit % 32);
            Feed(r, b, n) == if digit >= 64 then FAILED
                             else if digit >= 32 then r.(bits := bits, digits := r.digits + 1)
                             else Field(r, Signed(bits), n)
  {
    Separators();
  }

  lemma FieldIgnoresBits(r: Reader, s: Reader, v: int, n: nat)
    requires s == r.(bits := s.bits, digits := s.digits)
    ensures Field(s, v, n) == Field(r, v, n)
  {
  }

  /** The reader after the lowest digit of a written number. */
  lemma FeedLowest(r: Reader, v: int, n: nat, bits: int)
    requires r.ok && 0 <= v < TWO_31 && bits == r.bits + Pow32(r.digits) * (v % 32)
    ensures var b := Chars(Digits(v));
            Feed(r, b[0], n) ==
              if v / 32 > 0 then r.(bits := bits, digits := r.digits + 1) else Field(r, Signed(bits), n)
  {
    LowestChar(v);
    FeedDigit(r, v % 32, v / 32 > 0, n);
  }

  lemma FeedFirst(r: Reader, b: seq<Byte>, n: nat, s: Reader)
    requires b != [] && s == Feed(r, b[0], n)
    ensures FeedAll(r, b, n) == FeedAll(s, b[1..], n)
  {
  }

  /** The reader takes in a written number as one field. */
  lemma {:induction false} FeedDigits(r: Reader, v: int, n: nat, total: int)
    requires r.ok && 0 <= v < TWO_31 && total == r.bits + Pow32(r.digits) * v
    ensures FeedAll(r, Chars(Digits(v)), n) == Field(r, Signed(total), n)
    decreases v
  {
    var bits := r.bits + Pow32(r.digits) * (v % 32);
    JoinBits(r.bits, r.digits, v);
    FeedLowest(r, v, n, bits);
    LowestChar(v);
    if v / 32 > 0 {
      var s := r.(bits := bits, digits := r.digits + 1);
      FeedFirst(r, Chars(Digits(v)), n, s);
      FeedDigits(s, v / 32, n, total);
      FieldIgnoresBits(r, s, Signed(total), n);
    } else {
      FeedFirst(r, Chars(Digits(v)), n, Field(r, Signed(total), n));
    }
  }

  lemma FeedNumber(r: Reader, num: int, n: nat)
    requires r.ok && r.bits == 0 && r.digits == 0 && -TWO_30 < num < TWO_30
    ensures FeedAll(r, VlqBytes(num), n) == Field(r, num, n)
  {
    SmallZigZag(num);
    assert Pow32(0) == 1;
    FeedDigits(r, ZigZag(num), n, ZigZag(num));
  }
}
