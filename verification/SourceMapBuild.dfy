/** The source map builder as functions on values: what adding one source does to the
    output, the list of sources and the mappings, byte by byte. */
module SourceMapBuild {
  import opened Prelude
  import opened Vlq
  import opened SourceMapFormat

  /** `Source`: the content ends in a newline unless it is empty; `lines` counts them. */
  datatype Source = Source(content: seq<Byte>, sources: seq<string>, mappings: seq<Byte>, lines: nat)

  function Count(b: seq<Byte>, x: Byte): nat {
    if b == [] then 0 else Count(b[..|b| - 1], x) + if b[|b| - 1] == x then 1 else 0
  }

  /** A file as it was read: its text and the map that came with it. */
  datatype File = File(content: seq<Byte>, sources: seq<string>, mappings: seq<Byte>)

  function MakeSource(content: seq<Byte>, sources: seq<string>, mappings: seq<Byte>): Source {
    if |content| > 0 && content[|content| - 1] != NEWLINE
    then Source(content + [NEWLINE], sources, mappings, Count(content, NEWLINE) + 1)
    else Source(content, sources, mappings, Count(content, NEWLINE))
  }

  /** An array element that may be missing. */
  datatype Index = Undefined | Index(value: nat)

  datatype Builder = Builder(
    output: seq<Byte>,
    sources: seq<string>,
    mappings: seq<Byte>,
    lastSource: Index,
    lastLine: int,
    lastColumn: int)

  const EMPTY := Builder([], [], [], Index(0), 0, 0)

  // ---------------------------------------------------------------- the list of sources

  /** `indexOf`: the first position, or the length of the list. */
  function Position(sources: seq<string>, name: string): (p: nat)
    ensures p <= |sources| && (p < |sources| ==> sources[p] == name)
    ensures p == |sources| ==> name !in sources
  {
    if sources == [] then 0
    else if sources[0] == name then 0
    else 1 + Position(sources[1..], name)
  }

  function AddName(sources: seq<string>, name: string): seq<string> {
    if Position(sources, name) < |sources| then sources else sources + [name]
  }

  function AddNames(sources: seq<string>, names: seq<string>): seq<string>
    decreases |names|
  {
    if names == [] then sources else AddNames(AddName(sources, names[0]), names[1..])
  }

  /** Where each name ended up. */
  function Remap(sources: seq<string>, names: seq<string>): seq<nat>
    decreases |names|
  {
    if names == [] then []
    else [Position(sources, names[0])] + Remap(AddName(sources, names[0]), names[1..])
  }

  // ---------------------------------------------------------------- the loop over the bytes

  datatype Loop = Loop(
    mappings: seq<Byte>,
    lastSource: Index,
    lastLine: int,
    lastColumn: int,
    lastOutputColumn: int,
    outputLine: nat,
    column: int,
    source: int,
    line: int,
    sourceColumn: int,
    partial: Partial,
    fields: nat)

  function StartLoop(b: Builder): Loop {
    Loop(b.mappings, b.lastSource, b.lastLine, b.lastColumn, 0, 0, 0, 0, 0, 0, FRESH, 0)
  }

  function Lookup(remap: seq<nat>, i: int): Index {
    if 0 <= i < |remap| then Index(remap[i]) else Undefined
  }

  /** Subtracting a missing value gives NaN, which `addVLQ` writes like zero. */
  function IndexDelta(to: Index, from: Index): int {
    if to.Index? && from.Index? then to.value - from.value else 0
  }

  /** `commit`. */
  function Commit(l: Loop, remap: seq<nat>): Loop {
    if l.fields == 0 then l
    else
      var m := l.mappings + VlqBytes(l.column - l.lastOutputColumn);
      if l.fields == 1 then l.(mappings := m, lastOutputColumn := l.column, fields := 0)
      else
        var index := Lookup(remap, l.source);
        l.(mappings := m + VlqBytes(IndexDelta(index, l.lastSource)) + VlqBytes(l.line - l.lastLine) +
                       VlqBytes(l.sourceColumn - l.lastColumn),
           lastOutputColumn := l.column, lastSource := index, lastLine := l.line, lastColumn := l.sourceColumn,
           fields := 0)
  }

  /** The bytes of a segment with an origin. */
  lemma CommitMappings(l: Loop, remap: seq<nat>, delta: int)
    requires l.fields > 1 && delta == IndexDelta(Lookup(remap, l.source), l.lastSource)
    ensures Commit(l, remap).mappings ==
              l.mappings + VlqBytes(l.column - l.lastOutputColumn) + VlqBytes(delta) + VlqBytes(l.line - l.lastLine) +
              VlqBytes(l.sourceColumn - l.lastColumn)
  {
  }

  function AddField(l: Loop, v: int): Loop {
    var k := l.(fields := l.fields + 1, partial := FRESH);
    match l.fields
    case 0 => k.(column := l.column + v)
    case 1 => k.(source := l.source + v)
    case 2 => k.(line := l.line + v)
    case 3 => k.(sourceColumn := l.sourceColumn + v)
    case _ => k
  }

  predicate Readable(b: Byte) {
    b == SEMICOLON || b == COMMA || CharToInteger(b) != INVALID
  }

  function StepByte(l: Loop, b: Byte, remap: seq<nat>): Loop
    requires Readable(b)
  {
    if b == SEMICOLON then
      var c := Commit(l, remap);
      c.(mappings := c.mappings + [SEMICOLON], column := 0, lastOutputColumn := 0, outputLine := c.outputLine + 1)
    else if b == COMMA then
      var c := Commit(l, remap);
      c.(mappings := c.mappings + [COMMA])
    else
      var digit := CharToInteger(b);
      var value := Accumulate(l.partial, digit);
      if Continues(digit) then l.(partial := Partial(value, l.partial.shift + 5))
      else AddField(l, UnZigZag(value))
  }

  /** The loop stops at an unreadable byte: the builder throws. */
  function RunBytes(l: Loop, b: seq<Byte>, remap: seq<nat>): Option<Loop>
    decreases |b|
  {
    if b == [] then Some(l)
    else if !Readable(b[0]) then None
    else RunBytes(StepByte(l, b[0], remap), b[1..], remap)
  }

  function Repeat(x: Byte, n: nat): (r: seq<Byte>)
    ensures |r| == n && forall i :: 0 <= i < n ==> r[i] == x
  {
    if n == 0 then [] else Repeat(x, n - 1) + [x]
  }

  /** The last segment, then one ';' for every line of content not covered yet. */
  function Finish(l: Loop, remap: seq<nat>, lines: nat): Loop {
    var c := Commit(l, remap);
    if c.outputLine < lines
    then c.(mappings := c.mappings + Repeat(SEMICOLON, lines - c.outputLine), outputLine := lines)
    else c
  }

  function AddSource(b: Builder, s: Source): Option<Builder> {
    var remap := Remap(b.sources, s.sources);
    var run := RunBytes(StartLoop(b), s.mappings, remap);
    if run.None? then None
    else
      var l := Finish(run.value, remap, s.lines);
      Some(Builder(b.output + s.content, AddNames(b.sources, s.sources), l.mappings,
                   l.lastSource, l.lastLine, l.lastColumn))
  }

  function AddLine(b: Builder, text: seq<Byte>): Builder {
    b.(output := b.output + text + [NEWLINE], mappings := b.mappings + [SEMICOLON])
  }

  function AddAll(b: Builder, sources: seq<Source>): Option<Builder>
    decreases |sources|
  {
    if sources == [] then Some(b)
    else
      var b1 := AddSource(b, sources[0]);
      if b1.None? then None else AddAll(b1.value, sources[1..])
  }

  // ---------------------------------------------------------------- names keep their meaning

  lemma {:induction false} NamesKept(sources: seq<string>, names: seq<string>)
    ensures sources <= AddNames(sources, names)
    ensures |Remap(sources, names)| == |names|
    ensures forall i :: 0 <= i < |names| ==>
              Remap(sources, names)[i] < |AddNames(sources, names)| &&
              AddNames(sources, names)[Remap(sources, names)[i]] == names[i]
    decreases |names|
  {
    if names != [] {
      var s1 := AddName(sources, names[0]);
      NamesKept(s1, names[1..]);
      var r, r1 := Remap(sources, names), Remap(s1, names[1..]);
      forall i | 0 <= i < |names|
        ensures r[i] < |AddNames(sources, names)| && AddNames(sources, names)[r[i]] == names[i]
      {
        if i > 0 { assert r[i] == r1[i - 1] && names[i] == names[1..][i - 1]; }
        else { assert s1[r[0]] == names[0]; }
      }
    }
  }

  /** No source is listed twice. */
  lemma {:induction false} NamesDistinct(sources: seq<string>, names: seq<string>)
    requires forall i, j :: 0 <= i < j < |sources| ==> sources[i] != sources[j]
    ensures forall i, j :: 0 <= i < j < |AddNames(sources, names)| ==>
              AddNames(sources, names)[i] != AddNames(sources, names)[j]
    decreases |names|
  {
    if names != [] { NamesDistinct(AddName(sources, names[0]), names[1..]); }
  }
}
