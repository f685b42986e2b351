/** Whole bundles: the meaning of a concatenation, and the balance between the lines of
    the output and the lines of the mappings. */
module SourceMapTheorems {
  import opened Prelude
  import opened Vlq
  import opened SourceMapFormat
  import opened SourceMapBuild
  import opened SourceMapProof

  // ---------------------------------------------------------------- meaning

  ghost predicate AllWellFormed(sources: seq<Source>) {
    forall i :: 0 <= i < |sources| ==> WellFormed(sources[i])
  }

  ghost function TotalNames(sources: seq<Source>): nat {
    if sources == [] then 0 else |sources[0].sources| + TotalNames(sources[1..])
  }

  /** The lines of all sources, one source after the other. */
  ghost function MeaningOfAll(sources: seq<Source>): seq<seq<Named>>
    requires AllWellFormed(sources)
  {
    if sources == [] then [] else MeaningOf(sources[0]) + MeaningOfAll(sources[1..])
  }

  lemma EmptyIsGood()
    ensures Good(EMPTY) && Meaning(EMPTY) == []
  {
  }

  /** The mappings of b can be read and say m. */
  ghost predicate Means(b: Builder, m: seq<seq<Named>>) {
    Good(b) && Meaning(b) == m
  }

  lemma AddSourceMeans(b: Builder, s: Source, m: seq<seq<Named>>)
    requires Means(b, m) && WellFormed(s) && |b.sources| + |s.sources| <= TWO_30
    ensures AddSource(b, s).Some? && Means(AddSource(b, s).value, m + MeaningOf(s))
    ensures |AddSource(b, s).value.sources| <= |b.sources| + |s.sources|
  {
    AddSourceMeaning(b, s);
  }

  lemma MeaningOfFirst(sources: seq<Source>, m: seq<seq<Named>>)
    requires AllWellFormed(sources) && sources != []
    ensures WellFormed(sources[0]) && AllWellFormed(sources[1..])
    ensures m + MeaningOfAll(sources) == m + MeaningOf(sources[0]) + MeaningOfAll(sources[1..])
  {
    Regroup(m, MeaningOf(sources[0]), MeaningOfAll(sources[1..]));
  }

  /** Concatenation preserves meaning: for any sequence of well-formed sources the
      mappings that are built, read back, are the mappings of the sources one after
      the other, each shifted down by the lines before it. */
  lemma {:induction false} ConcatenationMeaning(b: Builder, sources: seq<Source>, m: seq<seq<Named>>)
    requires Means(b, m) && AllWellFormed(sources) && |b.sources| + TotalNames(sources) <= TWO_30
    ensures AddAll(b, sources).Some? && Means(AddAll(b, sources).value, m + MeaningOfAll(sources))
    decreases |sources|
  {
    if sources == [] {
      assert m + MeaningOfAll(sources) == m;
    } else {
      MeaningOfFirst(sources, m);
      AddSourceMeans(b, sources[0], m);
      ConcatenationMeaning(AddSource(b, sources[0]).value, sources[1..], m + MeaningOf(sources[0]));
    }
  }

  /** A line of text adds a line without segments. */
  lemma AddLineMeaning(b: Builder, text: seq<Byte>)
    requires Good(b)
    ensures Good(AddLine(b, text)) && Meaning(AddLine(b, text)) == Meaning(b) + [[]]
  {
    var o := Read(b);
    FeedAllJoin(START, b.mappings, [SEMICOLON], |b.sources|);
    assert FeedAll(Feed(o, SEMICOLON, |b.sources|), [], |b.sources|) == EndLine(o);
    NamesJoin(o.lines, [[]], b.sources);
    assert NameLines([[]], b.sources) == [[]];
  }

  // ---------------------------------------------------------------- balance of lines

  lemma {:induction false} CountJoin(a: seq<Byte>, b: seq<Byte>, x: Byte)
    ensures Count(a + b, x) == Count(a, x) + Count(b, x)
    decreases |b|
  {
    if b == [] {
      assert a + b == a;
    } else {
      assert (a + b)[..|a + b| - 1] == a + b[..|b| - 1];
      CountJoin(a, b[..|b| - 1], x);
    }
  }

  lemma {:induction false} CountAbsent(b: seq<Byte>, x: Byte)
    requires x !in b
    ensures Count(b, x) == 0
    decreases |b|
  {
    if b != [] { CountAbsent(b[..|b| - 1], x); }
  }

  lemma {:induction false} CountRepeat(x: Byte, n: nat)
    ensures Count(Repeat(x, n), x) == n
  {
    if n > 0 {
      CountRepeat(x, n - 1);
      assert Repeat(x, n)[..n - 1] == Repeat(x, n - 1);
    }
  }

  lemma VlqHasNoSemicolon(num: int)
    ensures Count(VlqBytes(num), SEMICOLON) == 0
  {
    var d := Digits(ZigZag(num));
    forall i | 0 <= i < |d| ensures Chars(d)[i] != SEMICOLON { CharRoundTrip(d[i]); }
    CountAbsent(VlqBytes(num), SEMICOLON);
  }

  lemma NumberAddsNone(m: seq<Byte>, num: int)
    ensures Count(m + VlqBytes(num), SEMICOLON) == Count(m, SEMICOLON)
  {
    VlqHasNoSemicolon(num);
    CountJoin(m, VlqBytes(num), SEMICOLON);
  }

  lemma NumbersAddNone(m: seq<Byte>, a: int, b: int, c: int, d: int, r: seq<Byte>)
    requires r == m + VlqBytes(a) + VlqBytes(b) + VlqBytes(c) + VlqBytes(d)
    ensures Count(r, SEMICOLON) == Count(m, SEMICOLON)
  {
    NumberAddsNone(m, a);
    NumberAddsNone(m + VlqBytes(a), b);
    NumberAddsNone(m + VlqBytes(a) + VlqBytes(b), c);
    NumberAddsNone(m + VlqBytes(a) + VlqBytes(b) + VlqBytes(c), d);
  }

  lemma CommitCount(l: Loop, remap: seq<nat>)
    ensures Count(Commit(l, remap).mappings, SEMICOLON) == Count(l.mappings, SEMICOLON)
    ensures Commit(l, remap).outputLine == l.outputLine
  {
    if l.fields == 1 {
      NumberAddsNone(l.mappings, l.column - l.lastOutputColumn);
    } else if l.fields > 1 {
      var delta := IndexDelta(Lookup(remap, l.source), l.lastSource);
      NumbersAddNone(l.mappings, l.column - l.lastOutputColumn, delta, l.line - l.lastLine,
          l.sourceColumn - l.lastColumn,
        Commit(l, remap).mappings);
    }
  }

  lemma StepCount(l: Loop, b: Byte, remap: seq<nat>)
    requires Readable(b)
    ensures var s, k := StepByte(l, b, remap), if b == SEMICOLON then 1 else 0;
            Count(s.mappings, SEMICOLON) == Count(l.mappings, SEMICOLON) + k && s.outputLine == l.outputLine + k
  {
    CommitCount(l, remap);
    if b == SEMICOLON || b == COMMA {
      CountJoin(Commit(l, remap).mappings, [b], SEMICOLON);
      assert Count([b], SEMICOLON) == if b == SEMICOLON then 1 else 0;
    }
  }

  lemma {:induction false} RunCount(l: Loop, b: seq<Byte>, remap: seq<nat>)
    requires RunBytes(l, b, remap).Some?
    ensures var s := RunBytes(l, b, remap).value;
            && Count(s.mappings, SEMICOLON) == Count(l.mappings, SEMICOLON) + Count(b, SEMICOLON)
            && s.outputLine == l.outputLine + Count(b, SEMICOLON)
    decreases |b|
  {
    if b != [] {
      StepCount(l, b[0], remap);
      RunCount(StepByte(l, b[0], remap), b[1..], remap);
      assert b == [b[0]] + b[1..];
      CountJoin([b[0]], b[1..], SEMICOLON);
      assert Count([b[0]], SEMICOLON) == if b[0] == SEMICOLON then 1 else 0;
    }
  }

  /** The builder throws exactly when the mappings hold a byte outside the alphabet. */
  lemma {:induction false} RunsIff(l: Loop, b: seq<Byte>, remap: seq<nat>)
    ensures RunBytes(l, b, remap).Some? <==> forall i :: 0 <= i < |b| ==> Readable(b[i])
    decreases |b|
  {
    if b != [] {
      if Readable(b[0]) {
        RunsIff(StepByte(l, b[0], remap), b[1..], remap);
        assert forall i :: 1 <= i < |b| ==> b[i] == b[1..][i - 1];
      }
    }
  }

  /** Lines of mappings beyond the lines of content. */
  function Excess(s: Source): nat {
    if Count(s.mappings, SEMICOLON) > s.lines then Count(s.mappings, SEMICOLON) - s.lines else 0
  }

  function TotalExcess(sources: seq<Source>): nat {
    if sources == [] then 0 else Excess(sources[0]) + TotalExcess(sources[1..])
  }

  /** The content of a source has as many newlines as it has lines. */
  ghost predicate CountsItsLines(s: Source) {
    Count(s.content, NEWLINE) == s.lines && (s.content == [] || s.content[|s.content| - 1] == NEWLINE)
  }

  /** The last line of the text is ended, by one newline at most and only where it is
      missing; an empty text stays empty. */
  ghost predicate EndsLine(text: seq<Byte>, ended: seq<Byte>) {
    && text <= ended && |ended| <= |text| + 1
    && (ended == [] || ended[|ended| - 1] == NEWLINE)
    && (|ended| > |text| <==> text != [] && text[|text| - 1] != NEWLINE)
  }

  /** The source stands for the file: its text with the last line ended, the lines of
      that text, and the map as it came. */
  ghost predicate StandsFor(s: Source, f: File) {
    && EndsLine(f.content, s.content) && CountsItsLines(s)
    && s.sources == f.sources && s.mappings == f.mappings
  }

  lemma MakeSourceCounts(content: seq<Byte>, sources: seq<string>, mappings: seq<Byte>)
    ensures StandsFor(MakeSource(content, sources, mappings), File(content, sources, mappings))
  {
    CountJoin(content, [NEWLINE], NEWLINE);
    assert Count([NEWLINE], NEWLINE) == 1;
  }

  /** That determines the source. */
  lemma StandsForOne(s: Source, f: File)
    requires StandsFor(s, f)
    ensures s == MakeSource(f.content, f.sources, f.mappings)
  {
    MakeSourceCounts(f.content, f.sources, f.mappings);
    var r := MakeSource(f.content, f.sources, f.mappings);
    assert |s.content| == |r.content|;
    assert s.content == r.content;
  }

  lemma AddSourceBalance(b: Builder, s: Source)
    requires AddSource(b, s).Some? && CountsItsLines(s)
    ensures var r := AddSource(b, s).value;
            Count(r.mappings, SEMICOLON) - Count(r.output, NEWLINE) ==
              Count(b.mappings, SEMICOLON) - Count(b.output, NEWLINE) + Excess(s)
  {
    var remap := Remap(b.sources, s.sources);
    var l := RunBytes(StartLoop(b), s.mappings, remap).value;
    RunCount(StartLoop(b), s.mappings, remap);
    CommitCount(l, remap);
    var c := Commit(l, remap);
    if c.outputLine < s.lines {
      CountJoin(c.mappings, Repeat(SEMICOLON, s.lines - c.outputLine), SEMICOLON);
      CountRepeat(SEMICOLON, s.lines - c.outputLine);
    }
    CountJoin(b.output, s.content, NEWLINE);
  }

  /** For any sources whose bytes can be read at all, the surplus of ';' in the mappings
      over newlines in the output grows by the lines of mappings beyond the content. */
  lemma {:induction false} LinesBalance(b: Builder, sources: seq<Source>)
    requires AddAll(b, sources).Some? && forall i :: 0 <= i < |sources| ==> CountsItsLines(sources[i])
    ensures var r := AddAll(b, sources).value;
            Count(r.mappings, SEMICOLON) - Count(r.output, NEWLINE) ==
              Count(b.mappings, SEMICOLON) - Count(b.output, NEWLINE) + TotalExcess(sources)
    decreases |sources|
  {
    if sources != [] {
      assert CountsItsLines(sources[0]);
      AddSourceBalance(b, sources[0]);
      LinesBalance(AddSource(b, sources[0]).value, sources[1..]);
    }
  }

  lemma {:induction false} NoExcessIff(sources: seq<Source>)
    ensures TotalExcess(sources) == 0 <==>
              forall i :: 0 <= i < |sources| ==> Count(sources[i].mappings, SEMICOLON) <= sources[i].lines
    decreases |sources|
  {
    if sources != [] {
      NoExcessIff(sources[1..]);
      assert forall i :: 1 <= i < |sources| ==> sources[i] == sources[1..][i - 1];
    }
  }

  /** The mappings have as many ';' as the output has newlines if and only if no source
      has more ';' than lines. */
  lemma BundleBalance(sources: seq<Source>)
    requires AddAll(EMPTY, sources).Some? && forall i :: 0 <= i < |sources| ==> CountsItsLines(sources[i])
    ensures var r := AddAll(EMPTY, sources).value;
            Count(r.mappings, SEMICOLON) == Count(r.output, NEWLINE) <==>
              forall i :: 0 <= i < |sources| ==> Count(sources[i].mappings, SEMICOLON) <= sources[i].lines
  {
    LinesBalance(EMPTY, sources);
    NoExcessIff(sources);
  }

  // ---------------------------------------------------------------- lines of content

  /** The contents of all sources, one after the other. */
  function Contents(sources: seq<Source>): seq<Byte> {
    if sources == [] then [] else sources[0].content + Contents(sources[1..])
  }

  function TotalLines(sources: seq<Source>): nat {
    if sources == [] then 0 else sources[0].lines + TotalLines(sources[1..])
  }

  lemma {:induction false} AddAllContent(b: Builder, sources: seq<Source>)
    requires AddAll(b, sources).Some?
    ensures AddAll(b, sources).value.output == b.output + Contents(sources)
    decreases |sources|
  {
    if sources == [] {
      assert b.output + [] == b.output;
    } else {
      AddAllContent(AddSource(b, sources[0]).value, sources[1..]);
      Regroup(b.output, sources[0].content, Contents(sources[1..]));
    }
  }

  lemma {:induction false} ContentsLines(sources: seq<Source>)
    requires forall i :: 0 <= i < |sources| ==> CountsItsLines(sources[i])
    ensures Count(Contents(sources), NEWLINE) == TotalLines(sources)
    decreases |sources|
  {
    if sources != [] {
      ContentsLines(sources[1..]);
      assert CountsItsLines(sources[0]);
      CountJoin(sources[0].content, Contents(sources[1..]), NEWLINE);
    }
  }

  lemma {:induction false} MeaningLines(sources: seq<Source>)
    requires AllWellFormed(sources)
    ensures |MeaningOfAll(sources)| == TotalLines(sources)
    decreases |sources|
  {
    if sources != [] {
      MeaningLines(sources[1..]);
    }
  }

  lemma {:induction false} MeaningJoin(a: seq<Source>, b: seq<Source>)
    requires AllWellFormed(a + b)
    ensures AllWellFormed(a) && AllWellFormed(b) && MeaningOfAll(a + b) == MeaningOfAll(a) + MeaningOfAll(b)
    decreases |a|
  {
    WellFormedParts(a, b);
    if a == [] {
      assert a + b == b;
    } else {
      assert (a + b)[1..] == a[1..] + b;
      MeaningJoin(a[1..], b);
      Regroup(MeaningOf(a[0]), MeaningOfAll(a[1..]), MeaningOfAll(b));
    }
  }

  lemma WellFormedParts(a: seq<Source>, b: seq<Source>)
    requires AllWellFormed(a + b)
    ensures AllWellFormed(a) && AllWellFormed(b)
  {
    assert forall i :: 0 <= i < |a| ==> (a + b)[i] == a[i];
    assert forall i :: 0 <= i < |b| ==> (a + b)[|a| + i] == b[i];
  }

  lemma {:induction false} ContentsJoin(a: seq<Source>, b: seq<Source>)
    ensures Contents(a + b) == Contents(a) + Contents(b)
    decreases |a|
  {
    if a == [] {
      assert a + b == b;
    } else {
      assert (a + b)[1..] == a[1..] + b;
      ContentsJoin(a[1..], b);
      Regroup(a[0].content, Contents(a[1..]), Contents(b));
    }
  }

  /** What lies before and after the k-th source, in the content and in the meaning. */
  ghost predicate LinesAt(sources: seq<Source>, k: nat, before: seq<Byte>, after: seq<Byte>,
                          m: seq<seq<Named>>, n: seq<seq<Named>>)
    requires k < |sources| && AllWellFormed(sources)
  {
    && Contents(sources) == before + sources[k].content + after
    && MeaningOfAll(sources) == m + MeaningOf(sources[k]) + n
    && Count(before, NEWLINE) == |m| && Count(sources[k].content, NEWLINE) == |MeaningOf(sources[k])|
  }

  /** The k-th source begins on the same line of the content and of the meaning: as many
      newlines lie before it as lines of meaning, and then come its own. */
  ghost predicate SameLines(sources: seq<Source>, k: nat)
    requires k < |sources| && AllWellFormed(sources)
  {
    exists before, after, m, n :: LinesAt(sources, k, before, after, m, n)
  }

  lemma SplitAt(sources: seq<Source>, k: nat)
    requires k < |sources|
    ensures sources == sources[..k] + sources[k..] && sources[k..][0] == sources[k]
    ensures sources[k..][1..] == sources[k + 1..]
  {
  }

  lemma ContentsAt(sources: seq<Source>, k: nat)
    requires k < |sources|
    ensures Contents(sources) == Contents(sources[..k]) + sources[k].content + Contents(sources[k + 1..])
  {
    SplitAt(sources, k);
    ContentsJoin(sources[..k], sources[k..]);
    Regroup(Contents(sources[..k]), sources[k].content, Contents(sources[k + 1..]));
  }

  lemma MeaningAt(sources: seq<Source>, k: nat)
    requires k < |sources| && AllWellFormed(sources)
    ensures AllWellFormed(sources[..k]) && AllWellFormed(sources[k + 1..]) && WellFormed(sources[k])
    ensures MeaningOfAll(sources) == MeaningOfAll(sources[..k]) + MeaningOf(sources[k]) + MeaningOfAll(sources[k + 1..])
  {
    SplitAt(sources, k);
    MeaningJoin(sources[..k], sources[k..]);
    Regroup(MeaningOfAll(sources[..k]), MeaningOf(sources[k]), MeaningOfAll(sources[k + 1..]));
  }

  lemma LinesAgree(sources: seq<Source>, k: nat)
    requires k < |sources| && AllWellFormed(sources) && forall i :: 0 <= i < |sources| ==> CountsItsLines(sources[i])
    ensures SameLines(sources, k)
  {
    var a, b := sources[..k], sources[k + 1..];
    ContentsAt(sources, k);
    MeaningAt(sources, k);
    ContentsLines(a);
    MeaningLines(a);
    assert CountsItsLines(sources[k]);
    assert LinesAt(sources, k, Contents(a), Contents(b), MeaningOfAll(a), MeaningOfAll(b));
  }

  /** An empty file whose map has one line: a ';' without a newline. */
  lemma ExcessLine()
    ensures var r := AddAll(EMPTY, [MakeSource([], [], [SEMICOLON])]);
            r.Some? && Count(r.value.mappings, SEMICOLON) == 1 && Count(r.value.output, NEWLINE) == 0
  {
    var s := MakeSource([], [], [SEMICOLON]);
    assert Count([SEMICOLON], SEMICOLON) == 1;
    RunsIff(StartLoop(EMPTY), s.mappings, []);
    assert [s][1..] == [];
    assert AddAll(EMPTY, [s]) == AddSource(EMPTY, s);
    AddSourceBalance(EMPTY, s);
    assert AddSource(EMPTY, s).value.output == [];
  }
}
