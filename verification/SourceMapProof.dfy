/** Concatenating source maps keeps their meaning: reading what the builder wrote gives
    back what reading each source gives. */
module SourceMapProof {
  import opened Prelude
  import opened Alphabet
  import opened Vlq
  import opened SourceMapFormat
  import opened SourceMapBuild

  // ---------------------------------------------------------------- remapped segments

  /** Where the names of a source are in the list of the builder. */
  ghost predicate ValidRemap(remap: seq<nat>, n: nat) {
    n <= TWO_30 && |remap| <= TWO_30 && forall i :: 0 <= i < |remap| ==> remap[i] < n
  }

  function RemapSegment(g: Segment, remap: seq<nat>): Segment
    requires SourceInRange(g, |remap|)
  {
    if g.origin.None? then g else g.(origin := Some(g.origin.value.(source := remap[g.origin.value.source])))
  }

  ghost function RemapLine(line: seq<Segment>, remap: seq<nat>): (r: seq<Segment>)
    requires AllInRange(line, |remap|)
    ensures |r| == |line| && forall i :: 0 <= i < |line| ==> r[i] == RemapSegment(line[i], remap)
  {
    seq(|line|, i requires 0 <= i < |line| => RemapSegment(line[i], remap))
  }

  ghost function RemapLines(lines: seq<seq<Segment>>, remap: seq<nat>): (r: seq<seq<Segment>>)
    requires LinesInRange(lines, |remap|)
    ensures |r| == |lines| && forall i :: 0 <= i < |lines| ==> r[i] == RemapLine(lines[i], remap)
  {
    seq(|lines|, i requires 0 <= i < |lines| => RemapLine(lines[i], remap))
  }

  // ---------------------------------------------------------------- the loop and the two readers

  /** The loop variables are those of a reader of the input. */
  ghost predicate Reads(i: Reader, l: Loop) {
    && l.column == i.column && l.source == i.source && l.line == i.line && l.sourceColumn == i.sourceColumn
    && l.fields == i.fields && l.outputLine == |i.lines|
    && l.partial.shift == 5 * i.digits && (i.bits < TWO_31 ==> l.partial.value == i.bits)
    && (i.digits == 0 ==> i.bits == 0)
  }

  /** The last values written are those of a reader of the output, which is between two
      segments. */
  ghost predicate Wrote(o: Reader, l: Loop) {
    && o.fields == 0 && o.bits == 0 && o.digits == 0 && o.source >= 0
    && o.column == l.lastOutputColumn && l.lastSource == Index(o.source) && o.line == l.lastLine
    && o.sourceColumn == l.lastColumn
    && (o.current == [] ==> o.column == 0)
  }

  /** The output reader has seen what was there before and the remapped input. */
  ghost predicate Copied(i: Reader, o: Reader, before: seq<seq<Segment>>, remap: seq<nat>) {
    && LinesInRange(i.lines, |remap|) && AllInRange(i.current, |remap|)
    && o.lines == before + RemapLines(i.lines, remap)
    && o.current == RemapLine(i.current, remap)
  }

  ghost predicate Related(i: Reader, l: Loop, o: Reader, before: seq<seq<Segment>>, remap: seq<nat>, n: nat) {
    && i.ok && o.ok && Sane(i, |remap|) && Sane(o, n) && ValidRemap(remap, n)
    && Reads(i, l) && Wrote(o, l) && Copied(i, o, before, remap)
    && o == FeedAll(START, l.mappings, n)
  }

  // ---------------------------------------------------------------- digits

  lemma AccumulateExact(i: Reader, l: Loop, digit: int, bits: int)
    requires Reads(i, l) && 0 <= digit < 64 && i.bits >= 0 && bits == i.bits + Pow32(i.digits) * (digit % 32)
    requires bits < TWO_31
    ensures Accumulate(l.partial, digit) == bits
  {
    AddDigit(i.bits, i.digits, digit);
  }

  lemma UnZigZagExact(bits: int)
    requires 0 <= bits < TWO_31
    ensures UnZigZag(bits) == Signed(bits)
  {
  }

  /** A number small enough for its field fits 31 bits, so the loop decodes it exactly. */
  lemma FieldBound(i: Reader, bits: int, n: nat)
    requires Sane(i, n) && n <= TWO_30 && bits >= 0 && i.fields < 4 && Field(i, Signed(bits), n).ok
    ensures bits < TWO_31
  {
    assert -TWO_30 < Signed(bits) < TWO_30;
  }

  lemma FieldStep(i: Reader, l: Loop, bits: int, v: int, n: nat)
    requires Reads(i, l) && i.ok && Field(i, Signed(bits), n).ok && (i.fields < 4 ==> v == Signed(bits))
    ensures Reads(Field(i, Signed(bits), n), AddField(l, v))
  {
  }

  /** The loop touches nothing but the variables of the input. */
  ghost predicate OnlyReads(l: Loop, s: Loop) {
    s == l.(column := s.column, source := s.source, line := s.line, sourceColumn := s.sourceColumn,
            partial := s.partial, fields := s.fields)
  }

  lemma DigitStep(i: Reader, l: Loop, b: Byte, remap: seq<nat>, n: nat)
    requires Sane(i, n) && Reads(i, l) && n <= TWO_30 && i.ok && b != SEMICOLON && b != COMMA && Feed(i, b, n).ok
    ensures Readable(b) && Reads(Feed(i, b, n), StepByte(l, b, remap)) && OnlyReads(l, StepByte(l, b, remap))
    ensures Feed(i, b, n).lines == i.lines && Feed(i, b, n).current == i.current
  {
    var digit := CharToInteger(b);
    var bits := i.bits + Pow32(i.digits) * (digit % 32);
    FeedOneDigit(i, b, n, digit, bits);
    StepDigit(l, b, remap, digit);
    DigitRelated(i, l, digit, bits, Feed(i, b, n), StepByte(l, b, remap), n);
  }

  lemma FeedOneDigit(i: Reader, b: Byte, n: nat, digit: int, bits: int)
    requires i.ok && b != SEMICOLON && b != COMMA && Feed(i, b, n).ok
    requires digit == CharToInteger(b) && bits == i.bits + Pow32(i.digits) * (digit % 32)
    ensures 0 <= digit < 64 && Readable(b)
    ensures Feed(i, b, n) == if digit >= 32 then i.(bits := bits, digits := i.digits + 1) else Field(i, Signed(bits), n)
  {
    TableIsDigit(b);
    FeedTakes(i, b, DigitOf(b), n);
  }

  lemma StepDigit(l: Loop, b: Byte, remap: seq<nat>, digit: int)
    requires b != SEMICOLON && b != COMMA && Readable(b) && digit == CharToInteger(b) && digit < 64
    ensures StepByte(l, b, remap) ==
              var value := Accumulate(l.partial, digit);
              if digit >= 32 then l.(partial := Partial(value, l.partial.shift + 5)) else AddField(l, UnZigZag(value))
  {
  }

  lemma DigitRelated(i: Reader, l: Loop, digit: int, bits: int, f: Reader, s: Loop, n: nat)
    requires Sane(i, n) && Reads(i, l) && n <= TWO_30 && i.ok && f.ok
    requires 0 <= digit < 64 && bits == i.bits + Pow32(i.digits) * (digit % 32)
    requires f == if digit >= 32 then i.(bits := bits, digits := i.digits + 1) else Field(i, Signed(bits), n)
    requires s == var value := Accumulate(l.partial, digit);
                  if digit >= 32 then l.(partial := Partial(value, l.partial.shift + 5))
                      else AddField(l, UnZigZag(value))
    ensures Reads(f, s) && OnlyReads(l, s) && f.lines == i.lines && f.current == i.current
  {
    Positive(Pow32(i.digits), digit % 32);
    var value := Accumulate(l.partial, digit);
    if bits < TWO_31 { AccumulateExact(i, l, digit, bits); }
    if digit < 32 { LastDigit(i, l, bits, value, n); } else { MoreDigits(i, l, bits, value); }
  }

  lemma Positive(x: nat, y: nat)
    ensures x * y >= 0
  {
  }

  lemma MoreDigits(i: Reader, l: Loop, bits: int, value: int)
    requires Reads(i, l) && (bits < TWO_31 ==> value == bits)
    ensures Reads(i.(bits := bits, digits := i.digits + 1), l.(partial := Partial(value, l.partial.shift + 5)))
  {
  }

  lemma LastDigit(i: Reader, l: Loop, bits: int, value: int, n: nat)
    requires Sane(i, n) && Reads(i, l) && n <= TWO_30 && i.ok && bits >= 0 && Field(i, Signed(bits), n).ok
    requires bits < TWO_31 ==> value == bits
    ensures Reads(Field(i, Signed(bits), n), AddField(l, UnZigZag(value)))
  {
    if bits < TWO_31 { UnZigZagExact(bits); }
    if i.fields < 4 { FieldBound(i, bits, n); }
    FieldStep(i, l, bits, UnZigZag(value), n);
  }

  // ---------------------------------------------------------------- segments

  /** Writing one more number that keeps its field in bounds. */
  lemma WriteNumber(o: Reader, m: seq<Byte>, num: int, n: nat)
    requires o.ok && o == FeedAll(START, m, n) && o.bits == 0 && o.digits == 0 && -TWO_30 < num < TWO_30
    ensures FeedAll(START, m + VlqBytes(num), n) == Field(o, num, n)
  {
    FeedAllJoin(START, m, VlqBytes(num), n);
    FeedNumber(o, num, n);
  }

  ghost predicate Between(o: Reader, m: seq<Byte>, fields: nat, n: nat) {
    o.ok && o == FeedAll(START, m, n) && o.bits == 0 && o.digits == 0 && o.fields == fields
  }

  lemma WriteColumn(o: Reader, m: seq<Byte>, c: int, n: nat)
    requires Between(o, m, 0, n) && InBounds(o.column) && InBounds(c)
    ensures Between(o.(fields := 1, column := c), m + VlqBytes(c - o.column), 1, n)
  {
    WriteNumber(o, m, c - o.column, n);
  }

  lemma WriteSource(o: Reader, m: seq<Byte>, c: int, n: nat)
    requires Between(o, m, 1, n) && n <= TWO_30 && 0 <= o.source < TWO_30 && 0 <= c < n
    ensures Between(o.(fields := 2, source := c), m + VlqBytes(c - o.source), 2, n)
  {
    WriteNumber(o, m, c - o.source, n);
  }

  lemma WriteLine(o: Reader, m: seq<Byte>, c: int, n: nat)
    requires Between(o, m, 2, n) && InBounds(o.line) && InBounds(c)
    ensures Between(o.(fields := 3, line := c), m + VlqBytes(c - o.line), 3, n)
  {
    WriteNumber(o, m, c - o.line, n);
  }

  lemma WriteSourceColumn(o: Reader, m: seq<Byte>, c: int, n: nat)
    requires Between(o, m, 3, n) && InBounds(o.sourceColumn) && InBounds(c)
    ensures Between(o.(fields := 4, sourceColumn := c), m + VlqBytes(c - o.sourceColumn), 4, n)
  {
    WriteNumber(o, m, c - o.sourceColumn, n);
  }

  /** What the output reader holds after `commit`, before the separator. */
  ghost function Pending(i: Reader, o: Reader, remap: seq<nat>): Reader
    requires i.fields >= 2 ==> 0 <= i.source < |remap|
  {
    if i.fields == 0 then o
    else if i.fields == 1 then o.(fields := 1, column := i.column)
    else o.(fields := 4, column := i.column, source := remap[i.source], line := i.line, sourceColumn := i.sourceColumn)
  }

  lemma WriteSegment(o: Reader, m: seq<Byte>, column: int, to: int, line: int, sourceColumn: int, n: nat)
    requires Between(o, m, 0, n) && n <= TWO_30 && InBounds(o.column) && 0 <= o.source < TWO_30 && InBounds(o.line)
    requires InBounds(o.sourceColumn)
    requires InBounds(column) && 0 <= to < n && InBounds(line) && InBounds(sourceColumn)
    ensures FeedAll(START, m + VlqBytes(column - o.column) + VlqBytes(to - o.source) + VlqBytes(line - o.line) +
                           VlqBytes(sourceColumn - o.sourceColumn), n) ==
              o.(fields := 4, column := column, source := to, line := line, sourceColumn := sourceColumn)
  {
    WriteColumn(o, m, column, n);
    var m1, o1 := m + VlqBytes(column - o.column), o.(fields := 1, column := column);
    WriteSource(o1, m1, to, n);
    var m2, o2 := m1 + VlqBytes(to - o.source), o1.(fields := 2, source := to);
    WriteLine(o2, m2, line, n);
    var m3, o3 := m2 + VlqBytes(line - o.line), o2.(fields := 3, line := line);
    WriteSourceColumn(o3, m3, sourceColumn, n);
  }

  lemma CommitFeeds(i: Reader, l: Loop, o: Reader, before: seq<seq<Segment>>, remap: seq<nat>, n: nat)
    requires Related(i, l, o, before, remap, n) && EndSegment(i).ok
    ensures FeedAll(START, Commit(l, remap).mappings, n) == Pending(i, o, remap)
  {
    if i.fields == 1 {
      WriteColumn(o, l.mappings, i.column, n);
    } else if i.fields >= 2 {
      SegmentFeeds(i, l, o, remap, n);
    }
  }

  lemma SegmentFeeds(i: Reader, l: Loop, o: Reader, remap: seq<nat>, n: nat)
    requires Sane(i, |remap|) && Sane(o, n) && ValidRemap(remap, n) && Reads(i, l) && Wrote(o, l) && o.ok
    requires o == FeedAll(START, l.mappings, n) && i.fields >= 2
    ensures FeedAll(START, Commit(l, remap).mappings, n) == Pending(i, o, remap)
  {
    var a, b := i.column - o.column, remap[i.source] - o.source;
    var c, d := i.line - o.line, i.sourceColumn - o.sourceColumn;
    DeltaBytes(l, remap, a, b, c, d);
    BytesFeed(o, l.mappings, Commit(l, remap).mappings, a, b, c, d, n);
  }

  /** The bytes end in the four numbers of a segment. */
  ghost predicate EndsInSegment(bytes: seq<Byte>, m: seq<Byte>, a: int, b: int, c: int, d: int) {
    bytes == m + VlqBytes(a) + VlqBytes(b) + VlqBytes(c) + VlqBytes(d)
  }

  lemma DeltaBytes(l: Loop, remap: seq<nat>, a: int, b: int, c: int, d: int)
    requires l.fields > 1 && a == l.column - l.lastOutputColumn
    requires b == IndexDelta(Lookup(remap, l.source), l.lastSource)
    requires c == l.line - l.lastLine && d == l.sourceColumn - l.lastColumn
    ensures EndsInSegment(Commit(l, remap).mappings, l.mappings, a, b, c, d)
  {
    CommitMappings(l, remap, b);
  }

  lemma BytesFeed(o: Reader, m: seq<Byte>, bytes: seq<Byte>, a: int, b: int, c: int, d: int, n: nat)
    requires Between(o, m, 0, n) && n <= TWO_30 && EndsInSegment(bytes, m, a, b, c, d)
    requires InBounds(o.column) && 0 <= o.source < TWO_30 && InBounds(o.line) && InBounds(o.sourceColumn)
    requires InBounds(o.column + a) && 0 <= o.source + b < n && InBounds(o.line + c) && InBounds(o.sourceColumn + d)
    ensures FeedAll(START, bytes, n) ==
              o.(fields := 4, column := o.column + a, source := o.source + b, line := o.line + c,
                 sourceColumn := o.sourceColumn + d)
  {
    WriteSegment(o, m, o.column + a, o.source + b, o.line + c, o.sourceColumn + d, n);
  }

  /** The segment the reader of the input ends is the one the reader of the output
      ends, with its source remapped. */
  lemma EndSegmentCopied(i: Reader, o: Reader, before: seq<seq<Segment>>, remap: seq<nat>, n: nat)
    requires i.ok && o.ok && Sane(i, |remap|) && o.fields == 0 && o.digits == 0 && EndSegment(i).ok
    requires Copied(i, o, before, remap)
    ensures EndSegment(Pending(i, o, remap)).ok
    ensures Copied(EndSegment(i), EndSegment(Pending(i, o, remap)), before, remap)
  {
    var i1, o1 := EndSegment(i), EndSegment(Pending(i, o, remap));
    EndSegmentSane(i, |remap|);
    if i.fields >= 1 {
      var k := |i.current|;
      assert i1.current[..k] == i.current && o1.current[..k] == o.current;
      assert o1.current[k] == RemapSegment(i1.current[k], remap);
      assert o1.current == RemapLine(i1.current, remap);
    }
  }

  lemma SegmentStep(i: Reader, l: Loop, o: Reader, before: seq<seq<Segment>>, remap: seq<nat>, n: nat)
    requires Related(i, l, o, before, remap, n) && EndSegment(i).ok
    ensures var i1, l1, o1 := EndSegment(i), Commit(l, remap), EndSegment(Pending(i, o, remap));
            && o1.ok && Sane(i1, |remap|) && Sane(o1, n) && Reads(i1, l1) && Wrote(o1, l1)
            && Copied(i1, o1, before, remap)
            && l1.outputLine == l.outputLine
  {
    EndSegmentCopied(i, o, before, remap, n);
    EndSegmentSane(i, |remap|);
    assert Sane(Pending(i, o, remap), n);
    EndSegmentSane(Pending(i, o, remap), n);
  }

  lemma CommaStep(i: Reader, l: Loop, o: Reader, before: seq<seq<Segment>>, remap: seq<nat>, n: nat)
    requires Related(i, l, o, before, remap, n) && Feed(i, COMMA, |remap|).ok
    ensures Related(Feed(i, COMMA, |remap|), StepByte(l, COMMA, remap), EndSegment(Pending(i, o, remap)), before,
        remap, n)
  {
    SegmentStep(i, l, o, before, remap, n);
    CommitFeeds(i, l, o, before, remap, n);
    var c := Commit(l, remap);
    FeedAllJoin(START, c.mappings, [COMMA], n);
    assert FeedAll(Feed(Pending(i, o, remap), COMMA, n), [], n) == EndSegment(Pending(i, o, remap));
  }

  lemma EndLineCopied(i: Reader, o: Reader, before: seq<seq<Segment>>, remap: seq<nat>)
    requires Copied(i, o, before, remap)
    ensures Copied(EndLine(i), EndLine(o), before, remap)
  {
    assert EndLine(o).lines == before + RemapLines(EndLine(i).lines, remap);
  }

  lemma SemicolonStep(i: Reader, l: Loop, o: Reader, before: seq<seq<Segment>>, remap: seq<nat>, n: nat)
    requires Related(i, l, o, before, remap, n) && Feed(i, SEMICOLON, |remap|).ok
    ensures Related(Feed(i, SEMICOLON, |remap|), StepByte(l, SEMICOLON, remap),
        EndLine(EndSegment(Pending(i, o, remap))), before, remap, n)
  {
    SegmentStep(i, l, o, before, remap, n);
    CommitFeeds(i, l, o, before, remap, n);
    var c, o1 := Commit(l, remap), Pending(i, o, remap);
    FeedAllJoin(START, c.mappings, [SEMICOLON], n);
    assert FeedAll(Feed(o1, SEMICOLON, n), [], n) == EndLine(EndSegment(o1));
    EndLineCopied(EndSegment(i), EndSegment(o1), before, remap);
    FeedSane(i, SEMICOLON, |remap|);
    FeedSane(o1, SEMICOLON, n);
  }

  // ---------------------------------------------------------------- a whole source

  /** After one byte the readers are related again. */
  lemma ByteStep(i: Reader, l: Loop, o: Reader, b: Byte, before: seq<seq<Segment>>, remap: seq<nat>,
                 n: nat) returns (o': Reader)
    requires Related(i, l, o, before, remap, n) && Feed(i, b, |remap|).ok
    ensures Readable(b) && Related(Feed(i, b, |remap|), StepByte(l, b, remap), o', before, remap, n)
  {
    if b == COMMA {
      CommaStep(i, l, o, before, remap, n);
      o' := EndSegment(Pending(i, o, remap));
    } else if b == SEMICOLON {
      SemicolonStep(i, l, o, before, remap, n);
      o' := EndLine(EndSegment(Pending(i, o, remap)));
    } else {
      DigitStep(i, l, b, remap, |remap|);
      FeedSane(i, b, |remap|);
      o' := o;
    }
  }

  lemma {:induction false} BytesStep(i: Reader, l: Loop, o: Reader, b: seq<Byte>, before: seq<seq<Segment>>,
                                     remap: seq<nat>, n: nat)
    returns (o': Reader)
    requires Related(i, l, o, before, remap, n) && FeedAll(i, b, |remap|).ok
    ensures var run := RunBytes(l, b, remap);
            run.Some? && Related(FeedAll(i, b, |remap|), run.value, o', before, remap, n)
    decreases |b|
  {
    if b == [] {
      o' := o;
    } else {
      var i1 := Feed(i, b[0], |remap|);
      if !i1.ok { FailedStays(i1, b[1..], |remap|); }
      var o1 := ByteStep(i, l, o, b[0], before, remap, n);
      o' := BytesStep(i1, StepByte(l, b[0], remap), o1, b[1..], before, remap, n);
    }
  }

  /** A source whose mappings can be read, with no segment past its last line. */
  ghost predicate WellFormed(s: Source) {
    var r := FeedAll(START, s.mappings, |s.sources|);
    var e := EndSegment(r);
    && r.ok && e.ok
    && |r.lines| <= s.lines && (|r.lines| == s.lines ==> e.current == [])
  }

  /** The segments of a source, one list for each line of its content. */
  ghost function Lines(s: Source): (r: seq<seq<Segment>>)
    requires WellFormed(s)
    ensures |r| == s.lines
  {
    var r := FeedAll(START, s.mappings, |s.sources|);
    if |r.lines| == s.lines then r.lines
    else r.lines + [EndSegment(r).current] + seq(s.lines - |r.lines| - 1, _ => [])
  }

  /** Padding: the first ';' ends the current line, the others add empty ones. */
  lemma {:induction false} Pads(o: Reader, m: seq<Byte>, k: nat, n: nat)
    requires o == FeedAll(START, m, n) && o.ok && EndSegment(o).ok && k >= 1
    ensures FeedAll(START, m + Repeat(SEMICOLON, k), n) ==
              EndLine(EndSegment(o)).(lines := o.lines + [EndSegment(o).current] + seq(k - 1, _ => []))
    decreases k
  {
    var e := EndLine(EndSegment(o));
    if k == 1 {
      assert Repeat(SEMICOLON, 0) == [] && Repeat(SEMICOLON, 1) == [SEMICOLON];
      FeedAllJoin(START, m, [SEMICOLON], n);
      assert FeedAll(Feed(o, SEMICOLON, n), [], n) == e;
      assert e.lines == o.lines + [EndSegment(o).current] + seq(0, _ => []);
    } else {
      Pads(o, m, k - 1, n);
      var m1 := m + Repeat(SEMICOLON, k - 1);
      assert m + Repeat(SEMICOLON, k) == m1 + [SEMICOLON];
      FeedAllJoin(START, m1, [SEMICOLON], n);
      var r := FeedAll(START, m1, n);
      assert FeedAll(Feed(r, SEMICOLON, n), [], n) == EndLine(EndSegment(r));
      assert r.lines + [[]] == o.lines + [EndSegment(o).current] + seq(k - 1, _ => []);
    }
  }

  // ---------------------------------------------------------------- names

  lemma NamesAfterRemap(lines: seq<seq<Segment>>, remap: seq<nat>, names: seq<string>, sources: seq<string>)
    requires |remap| == |names| && LinesInRange(lines, |names|)
    requires forall i :: 0 <= i < |remap| ==> remap[i] < |sources| && sources[remap[i]] == names[i]
    ensures LinesInRange(RemapLines(lines, remap), |sources|)
    ensures NameLines(RemapLines(lines, remap), sources) == NameLines(lines, names)
  {
    var r := RemapLines(lines, remap);
    forall i | 0 <= i < |lines| ensures AllInRange(r[i], |sources|) {
      forall k | 0 <= k < |lines[i]| ensures SourceInRange(r[i][k], |sources|) {
        assert SourceInRange(lines[i][k], |names|);
      }
    }
    forall i | 0 <= i < |lines| ensures NameLine(r[i], sources) == NameLine(lines[i], names) {
      forall k | 0 <= k < |lines[i]| ensures Name(r[i][k], sources) == Name(lines[i][k], names) {
        assert SourceInRange(lines[i][k], |names|) && SourceInRange(r[i][k], |sources|);
      }
    }
  }

  lemma NamesAfterGrowth(lines: seq<seq<Segment>>, names: seq<string>, sources: seq<string>)
    requires names <= sources && LinesInRange(lines, |names|)
    ensures LinesInRange(lines, |sources|) && NameLines(lines, sources) == NameLines(lines, names)
  {
    forall i | 0 <= i < |lines| ensures AllInRange(lines[i], |sources|) {
      assert AllInRange(lines[i], |names|);
    }
    forall i | 0 <= i < |lines| ensures NameLine(lines[i], sources) == NameLine(lines[i], names) {
      forall k | 0 <= k < |lines[i]| ensures Name(lines[i][k], sources) == Name(lines[i][k], names) {
        assert SourceInRange(lines[i][k], |names|);
      }
    }
  }

  lemma NamesJoin(a: seq<seq<Segment>>, b: seq<seq<Segment>>, sources: seq<string>)
    requires LinesInRange(a, |sources|) && LinesInRange(b, |sources|)
    ensures LinesInRange(a + b, |sources|) && NameLines(a + b, sources) == NameLines(a, sources) + NameLines(b, sources)
  {
  }

  // ---------------------------------------------------------------- the builder between two sources

  ghost function Read(b: Builder): Reader {
    FeedAll(START, b.mappings, |b.sources|)
  }

  /** The mappings can be read, end at the start of a line, and the builder remembers
      the last values written. */
  ghost predicate Good(b: Builder) {
    && Read(b).ok && Sane(Read(b), |b.sources|) && Read(b).current == []
    && Wrote(Read(b), StartLoop(b)) && |b.sources| <= TWO_30
  }

  /** What the mappings say: for every line of output, its segments with the names of
      their sources. */
  ghost function Meaning(b: Builder): seq<seq<Named>>
    requires Good(b)
  {
    NameLines(Read(b).lines, b.sources)
  }

  lemma LinesSane(s: Source)
    requires WellFormed(s)
    ensures LinesInRange(Lines(s), |s.sources|)
  {
    FeedAllSane(START, s.mappings, |s.sources|);
    var r := FeedAll(START, s.mappings, |s.sources|);
    EndSegmentSane(r, |s.sources|);
    forall i | 0 <= i < |Lines(s)| ensures AllInRange(Lines(s)[i], |s.sources|) {
      if i < |r.lines| { assert Lines(s)[i] == r.lines[i]; }
    }
  }

  ghost function MeaningOf(s: Source): (m: seq<seq<Named>>)
    requires WellFormed(s)
    ensures |m| == s.lines
  {
    LinesSane(s);
    NameLines(Lines(s), s.sources)
  }

  /** The end of a source: what the reader of the output holds after padding. */
  lemma FinishRelated(s: Source, l: Loop, o: Reader, before: seq<seq<Segment>>, remap: seq<nat>, n: nat)
    requires |remap| == |s.sources| && WellFormed(s)
    requires Related(FeedAll(START, s.mappings, |remap|), l, o, before, remap, n)
    ensures LinesInRange(Lines(s), |remap|)
    ensures var f := Finish(l, remap, s.lines);
            var r := FeedAll(START, f.mappings, n);
            && r.ok && Sane(r, n) && r.current == [] && r.lines == before + RemapLines(Lines(s), remap)
            && Wrote(r, f.(lastOutputColumn := 0))
  {
    LinesSane(s);
    var i := FeedAll(START, s.mappings, |remap|);
    SegmentStep(i, l, o, before, remap, n);
    CommitFeeds(i, l, o, before, remap, n);
    var c, p := Commit(l, remap), Pending(i, o, remap);
    var k := s.lines - |i.lines|;
    if k > 0 {
      Pads(p, c.mappings, k, n);
      FinishLines(s, i, EndSegment(p), before, remap, k);
      var r := FeedAll(START, c.mappings + Repeat(SEMICOLON, k), n);
      assert LinesInRange(r.lines, n) by { RemapInRange(before, Lines(s), remap, n, o); }
    }
  }

  lemma RemapInRange(before: seq<seq<Segment>>, lines: seq<seq<Segment>>, remap: seq<nat>, n: nat, o: Reader)
    requires LinesInRange(lines, |remap|) && ValidRemap(remap, n) && LinesInRange(o.lines, n) && before <= o.lines
    ensures LinesInRange(before + RemapLines(lines, remap), n)
  {
    var all := before + RemapLines(lines, remap);
    forall i | 0 <= i < |all| ensures AllInRange(all[i], n) {
      if i < |before| {
        assert all[i] == o.lines[i];
      } else {
        var line := lines[i - |before|];
        assert all[i] == RemapLine(line, remap);
        forall k | 0 <= k < |line| ensures SourceInRange(all[i][k], n) { assert SourceInRange(line[k], |remap|); }
      }
    }
  }

  lemma FinishLines(s: Source, i: Reader, e: Reader, before: seq<seq<Segment>>, remap: seq<nat>, k: nat)
    requires WellFormed(s) && |remap| == |s.sources| && i == FeedAll(START, s.mappings, |s.sources|)
    requires k == s.lines - |i.lines| && k > 0
    requires LinesInRange(Lines(s), |remap|) && Copied(EndSegment(i), e, before, remap)
    ensures e.lines + [e.current] + seq(k - 1, _ => []) == before + RemapLines(Lines(s), remap)
  {
    var lines := Lines(s);
    var left := e.lines + [e.current] + seq(k - 1, _ => []);
    forall j | 0 <= j < |lines| ensures left[|before| + j] == RemapLine(lines[j], remap) {
      if j < |i.lines| {
        assert lines[j] == EndSegment(i).lines[j];
      } else if j == |i.lines| {
        assert lines[j] == EndSegment(i).current;
      } else {
        assert lines[j] == [];
      }
    }
    assert left == before + RemapLines(lines, remap);
  }

  /** Adding one well-formed source appends exactly its lines, with the same positions
      and the same source names. */
  lemma AddSourceMeaning(b: Builder, s: Source)
    requires Good(b) && WellFormed(s) && |b.sources| + |s.sources| <= TWO_30
    ensures var r := AddSource(b, s);
            && r.Some? && Good(r.value)
            && Meaning(r.value) == Meaning(b) + MeaningOf(s)
            && r.value.output == b.output + s.content && b.sources <= r.value.sources
            && |r.value.sources| <= |b.sources| + |s.sources|
  {
    var sources, remap := AddNames(b.sources, s.sources), Remap(b.sources, s.sources);
    var n, o := |sources|, Read(b);
    NamesKept(b.sources, s.sources);
    NamesCount(b.sources, s.sources);
    MoreSources(START, b.mappings, |b.sources|, n);
    NamesAfterGrowth(o.lines, b.sources, sources);
    assert o.lines + RemapLines([], remap) == o.lines;
    assert Related(START, StartLoop(b), o, o.lines, remap, n);
    var o1 := BytesStep(START, StartLoop(b), o, s.mappings, o.lines, remap, n);
    var l := RunBytes(StartLoop(b), s.mappings, remap).value;
    FinishRelated(s, l, o1, o.lines, remap, n);
    NamesAfterRemap(Lines(s), remap, s.sources, sources);
    NamesJoin(o.lines, RemapLines(Lines(s), remap), sources);
  }

  lemma {:induction false} NamesCount(sources: seq<string>, names: seq<string>)
    ensures |AddNames(sources, names)| <= |sources| + |names|
    decreases |names|
  {
    if names != [] { NamesCount(AddName(sources, names[0]), names[1..]); }
  }
}
