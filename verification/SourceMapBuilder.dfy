/** The builder as the program runs it: growing byte buffers, updated in place. */
module SourceMapBuilder {
  import opened Prelude
  import opened Vlq
  import opened SourceMapFormat
  import Build = SourceMapBuild

  /** `countNL`. */
  method CountNewlines(b: seq<Byte>) returns (res: nat)
    ensures res == Build.Count(b, NEWLINE)
  {
    res := 0;
    for i := 0 to |b|
      invariant res == Build.Count(b[..i], NEWLINE)
    {
      assert b[..i + 1][..i] == b[..i];
      if b[i] == NEWLINE { res := res + 1; }
    }
    assert b[..|b|] == b;
  }

  /** The constructor of `Source`. */
  method NewSource(f: Build.File) returns (s: Build.Source)
    ensures s == Build.MakeSource(f.content, f.sources, f.mappings)
  {
    var content := f.content;
    var lines := CountNewlines(content);
    if |content| > 0 && content[|content| - 1] != NEWLINE {
      lines := lines + 1;
      content := content + [NEWLINE];
    }
    s := Build.Source(content, f.sources, f.mappings, lines);
  }

  /** The lowest five bits with their continuation bit, and what is left. */
  method NextDigit(n: int) returns (clamped: int, rest: int)
    requires -TWO_31 <= n < TWO_31
    ensures 0 <= clamped < 64 && -TWO_31 <= rest < TWO_31 && (rest > 0 ==> rest < n)
    ensures Chars(Digits(n)) == [IntegerToChar(clamped)] + if rest > 0 then Chars(Digits(rest)) else []
  {
    clamped := And31(n);
    rest := Sar5(n);
    if rest > 0 {
      clamped := clamped + 32;
      assert Digits(n)[1..] == Digits(rest);
    }
  }

  lemma NamesTurn(sources: seq<string>, names: seq<string>, i: nat)
    requires i < |names|
    ensures var pos, more := Build.Position(sources, names[i]), Build.AddName(sources, names[i]);
            && Build.AddNames(sources, names[i..]) == Build.AddNames(more, names[i + 1..])
            && Build.Remap(sources, names[i..]) == [pos] + Build.Remap(more, names[i + 1..])
  {
    assert names[i..][0] == names[i] && names[i..][1..] == names[i + 1..];
  }

  class DynamicBuffer {
    var buffer: array<Byte>
    var size: nat

    ghost predicate Valid()
      reads this
    {
      size <= buffer.Length
    }

    ghost function Contents(): seq<Byte>
      requires Valid()
      reads this, buffer
    {
      buffer[..size]
    }

    constructor ()
      ensures Valid() && fresh(buffer) && Contents() == []
    {
      buffer := new Byte[512];
      size := 0;
    }

    /** Room for `capacity` bytes; the contents stay. */
    method EnsureCapacity(capacity: nat)
      requires Valid()
      modifies this
      ensures Valid() && buffer.Length >= capacity && size == old(size)
      ensures buffer == old(buffer) || fresh(buffer)
      ensures Contents() == old(Contents())
    {
      if buffer.Length >= capacity {
        return;
      }
      var oldBuffer := buffer;
      var grown := new Byte[if oldBuffer.Length * 2 >= capacity then oldBuffer.Length * 2 else capacity];
      for i := 0 to oldBuffer.Length
        invariant buffer == oldBuffer && size == old(size) && forall j :: 0 <= j < i ==> grown[j] == oldBuffer[j]
      {
        grown[i] := oldBuffer[i];
      }
      buffer := grown;
    }

    method AddByte(b: Byte)
      requires Valid()
      modifies this, buffer
      ensures Valid() && (buffer == old(buffer) || fresh(buffer))
      ensures Contents() == old(Contents()) + [b]
    {
      EnsureCapacity(size + 1);
      buffer[size] := b;
      size := size + 1;
    }

    /** The number in base64 VLQ, in 32-bit arithmetic. */
    method AddVLQ(num: int)
      requires Valid()
      modifies this, buffer
      ensures Valid() && (buffer == old(buffer) || fresh(buffer))
      ensures Contents() == old(Contents()) + VlqBytes(num)
    {
      var n, more := ZigZag(num), true;
      ghost var target, tail := Contents() + VlqBytes(num), VlqBytes(num);
      while more
        invariant Valid() && (buffer == old(buffer) || fresh(buffer)) && Contents() + tail == target
        invariant -TWO_31 <= n < TWO_31 && tail == if more then Chars(Digits(n)) else []
        decreases more, if n > 0 then n else 0
      {
        var clamped, rest := NextDigit(n);
        var c := IntegerToChar(clamped);
        ghost var before, tail' := Contents(), if rest > 0 then Chars(Digits(rest)) else [];
        Regroup(before, [c], tail');
        AddByte(c);
        n, more, tail := rest, rest > 0, tail';
      }
      assert Contents() + [] == Contents();
    }

    method AddBuffer(b: seq<Byte>)
      requires Valid()
      modifies this, buffer
      ensures Valid() && (buffer == old(buffer) || fresh(buffer))
      ensures Contents() == old(Contents()) + b
    {
      EnsureCapacity(size + |b|);
      for i := 0 to |b|
        invariant size == old(size) && buffer.Length >= size + |b| && (buffer == old(buffer) || fresh(buffer))
        invariant buffer[..size] == old(Contents()) && forall j :: 0 <= j < i ==> buffer[size + j] == b[j]
      {
        buffer[size + i] := b[i];
      }
      assert buffer[size..size + |b|] == b;
      assert buffer[..size + |b|] == buffer[..size] + buffer[size..size + |b|];
      size := size + |b|;
    }
  }

  /** `SourceMapBuilder`. */
  class Builder {
    const outputBuffer: DynamicBuffer
    const mappings: DynamicBuffer
    var sources: seq<string>
    var lastSource: Build.Index
    var lastLine: int
    var lastColumn: int

    ghost predicate Valid()
      reads this, outputBuffer, mappings
    {
      && outputBuffer != mappings && outputBuffer.Valid() && mappings.Valid()
      && outputBuffer.buffer != mappings.buffer
    }

    ghost function Repr(): set<object>
      reads this, outputBuffer, mappings
    {
      {this, outputBuffer, outputBuffer.buffer, mappings, mappings.buffer}
    }

    ghost function View(): Build.Builder
      requires Valid()
      reads this, outputBuffer, mappings, outputBuffer.buffer, mappings.buffer
    {
      Build.Builder(outputBuffer.Contents(), sources, mappings.Contents(), lastSource, lastLine, lastColumn)
    }

    constructor ()
      ensures Valid() && fresh(Repr()) && View() == Build.EMPTY
    {
      outputBuffer := new DynamicBuffer();
      mappings := new DynamicBuffer();
      sources, lastSource, lastLine, lastColumn := [], Build.Index(0), 0, 0;
    }

    method AddLine(text: seq<Byte>)
      requires Valid()
      modifies Repr()
      ensures Valid() && fresh(Repr() - old(Repr())) && View() == Build.AddLine(old(View()), text)
    {
      outputBuffer.AddBuffer(text);
      outputBuffer.AddByte(NEWLINE);
      mappings.AddByte(SEMICOLON);
    }

    /** Find or add the names of a source; tells where each one is. */
    method AddNames(names: seq<string>) returns (remap: seq<nat>)
      requires Valid()
      modifies this`sources
      ensures sources == Build.AddNames(old(sources), names) && remap == Build.Remap(old(sources), names)
    {
      remap := [];
      for i := 0 to |names|
        invariant Build.AddNames(sources, names[i..]) == Build.AddNames(old(sources), names)
        invariant remap + Build.Remap(sources, names[i..]) == Build.Remap(old(sources), names)
      {
        var pos := Build.Position(sources, names[i]);
        NamesTurn(sources, names, i);
        Regroup(remap, [pos], Build.Remap(Build.AddName(sources, names[i]), names[i + 1..]));
        if pos == |sources| {
          sources := sources + [names[i]];
        }
        remap := remap + [pos];
      }
    }

    /** The loop variables of `addSource` together with the fields it updates. */
    ghost function LoopView(lastOutputColumn: int, outputLine: nat, column: int, source: int, line: int,
                            sourceColumn: int,
                            partial: Partial, fields: nat): Build.Loop
      requires mappings.Valid()
      reads this, mappings, mappings.buffer
    {
      Build.Loop(mappings.Contents(), lastSource, lastLine, lastColumn, lastOutputColumn, outputLine,
                 column, source, line, sourceColumn, partial, fields)
    }

    /** `commit`. */
    method Commit(remap: seq<nat>, lastOutputColumn: int, column: int, source: int, line: int, sourceColumn: int,
                  fields: nat,
                  ghost l: Build.Loop)
      returns (outputColumn: int)
      requires Valid()
      requires l == LoopView(lastOutputColumn, l.outputLine, column, source, line, sourceColumn, l.partial, fields)
      modifies this`lastSource, this`lastLine, this`lastColumn, mappings, mappings.buffer
      ensures Valid() && (mappings.buffer == old(mappings.buffer) || fresh(mappings.buffer))
      ensures LoopView(outputColumn, l.outputLine, column, source, line, sourceColumn, l.partial, 0) ==
          Build.Commit(l, remap)
    {
      outputColumn := lastOutputColumn;
      if fields == 0 {
        return;
      }
      mappings.AddVLQ(column - lastOutputColumn);
      outputColumn := column;
      if fields == 1 {
        return;
      }
      ghost var delta := Build.IndexDelta(Build.Lookup(remap, source), l.lastSource);
      CommitOrigin(Build.Lookup(remap, source), line, sourceColumn);
      Build.CommitMappings(l, remap, delta);
      assert mappings.Contents() == Build.Commit(l, remap).mappings;
    }

    method CommitOrigin(index: Build.Index, line: int, sourceColumn: int)
      requires Valid()
      modifies this`lastSource, this`lastLine, this`lastColumn, mappings, mappings.buffer
      ensures Valid() && (mappings.buffer == old(mappings.buffer) || fresh(mappings.buffer))
      ensures lastSource == index && lastLine == line && lastColumn == sourceColumn
      ensures mappings.Contents() == old(mappings.Contents()) + VlqBytes(Build.IndexDelta(index, old(lastSource))) +
                                     VlqBytes(line - old(lastLine)) + VlqBytes(sourceColumn - old(lastColumn))
    {
      mappings.AddVLQ(Build.IndexDelta(index, lastSource));
      lastSource := index;
      CommitPosition(line, sourceColumn);
    }

    method CommitPosition(line: int, sourceColumn: int)
      requires Valid()
      modifies this`lastLine, this`lastColumn, mappings, mappings.buffer
      ensures Valid() && (mappings.buffer == old(mappings.buffer) || fresh(mappings.buffer))
      ensures lastLine == line && lastColumn == sourceColumn
      ensures mappings.Contents() == old(mappings.Contents()) + VlqBytes(line - old(lastLine)) +
                                     VlqBytes(sourceColumn - old(lastColumn))
    {
      mappings.AddVLQ(line - lastLine);
      lastLine := line;
      mappings.AddVLQ(sourceColumn - lastColumn);
      lastColumn := sourceColumn;
    }

    method PadLines(from: nat, lines: nat)
      requires Valid() && from <= lines
      modifies mappings, mappings.buffer
      ensures Valid() && (mappings.buffer == old(mappings.buffer) || fresh(mappings.buffer))
      ensures mappings.Contents() == old(mappings.Contents()) + Build.Repeat(SEMICOLON, lines - from)
    {
      var outputLine := from;
      while outputLine < lines
        invariant from <= outputLine <= lines
        invariant Valid() && (mappings.buffer == old(mappings.buffer) || fresh(mappings.buffer))
        invariant mappings.Contents() == old(mappings.Contents()) + Build.Repeat(SEMICOLON, outputLine - from)
      {
        mappings.AddByte(SEMICOLON);
        outputLine := outputLine + 1;
      }
    }

    /** A ';' or ',' ends the segment; a ';' also ends the line. */
    method Separate(b: Byte, remap: seq<nat>, lastOutputColumn0: int, outputLine0: nat, column0: int, source: int,
                    line: int,
                    sourceColumn: int, fields: nat, ghost l: Build.Loop)
      returns (lastOutputColumn: int, outputLine: nat, column: int)
      requires Valid() && (b == SEMICOLON || b == COMMA)
      requires l == LoopView(lastOutputColumn0, outputLine0, column0, source, line, sourceColumn, l.partial, fields)
      modifies this`lastSource, this`lastLine, this`lastColumn, mappings, mappings.buffer
      ensures Valid() && (mappings.buffer == old(mappings.buffer) || fresh(mappings.buffer))
      ensures LoopView(lastOutputColumn, outputLine, column, source, line, sourceColumn, l.partial, 0) ==
          Build.StepByte(l, b, remap)
    {
      lastOutputColumn := Commit(remap, lastOutputColumn0, column0, source, line, sourceColumn, fields, l);
      mappings.AddByte(b);
      column, outputLine := column0, outputLine0;
      if b == SEMICOLON {
        column, lastOutputColumn, outputLine := 0, 0, outputLine0 + 1;
      }
    }

    /** One digit: more bits of the current number, or its end. */
    static method ReadDigit(b: Byte, column0: int, source0: int, line0: int, sourceColumn0: int,
                            partial0: Partial, fields0: nat,
                            ghost l: Build.Loop, ghost remap: seq<nat>)
      returns (column: int, source: int, line: int, sourceColumn: int, partial: Partial, fields: nat)
      requires b != SEMICOLON && b != COMMA && CharToInteger(b) != INVALID
      requires l == l.(column := column0, source := source0, line := line0, sourceColumn := sourceColumn0,
                       partial := partial0, fields := fields0)
      ensures l.(column := column, source := source, line := line, sourceColumn := sourceColumn,
                 partial := partial, fields := fields) == Build.StepByte(l, b, remap)
    {
      column, source, line, sourceColumn, partial, fields := column0, source0, line0, sourceColumn0, partial0, fields0;
      var digit := CharToInteger(b);
      var value := Accumulate(partial, digit);
      if Continues(digit) {
        partial := Partial(value, partial.shift + 5);
      } else {
        var v := UnZigZag(value);
        match fields {
          case 0 => column := column + v;
          case 1 => source := source + v;
          case 2 => line := line + v;
          case 3 => sourceColumn := sourceColumn + v;
          case _ =>
        }
        fields, partial := fields + 1, FRESH;
      }
    }

    /** The loop over the mappings of a source.  Stops at the first byte that is not in
        the alphabet. */
    method CopyMappings(input: seq<Byte>, lines: nat, remap: seq<nat>) returns (ok: bool)
      requires Valid()
      modifies this`lastSource, this`lastLine, this`lastColumn, mappings, mappings.buffer
      ensures Valid() && (mappings.buffer == old(mappings.buffer) || fresh(mappings.buffer))
      ensures var run := Build.RunBytes(old(LoopView(0, 0, 0, 0, 0, 0, FRESH, 0)), input, remap);
              && ok == run.Some?
              && (ok ==> var f := Build.Finish(run.value, remap, lines);
                         && mappings.Contents() == f.mappings && lastSource == f.lastSource
                         && lastLine == f.lastLine && lastColumn == f.lastColumn)
    {
      var lastOutputColumn, column, source, line, sourceColumn := 0, 0, 0, 0, 0;
      var outputLine: nat, fields: nat := 0, 0;
      var partial := FRESH;
      ghost var run := Build.RunBytes(LoopView(0, 0, 0, 0, 0, 0, FRESH, 0), input, remap);
      var ip := 0;
      while ip < |input|
        invariant 0 <= ip <= |input|
        invariant Valid() && (mappings.buffer == old(mappings.buffer) || fresh(mappings.buffer))
        invariant run == Build.RunBytes(
                    LoopView(lastOutputColumn, outputLine, column, source, line, sourceColumn, partial, fields),
                    input[ip..], remap)
      {
        var b := input[ip];
        assert input[ip..][0] == b && input[ip..][1..] == input[ip + 1..];
        ghost var l := LoopView(lastOutputColumn, outputLine, column, source, line, sourceColumn, partial, fields);
        if b == SEMICOLON || b == COMMA {
          lastOutputColumn, outputLine, column :=
            Separate(b, remap, lastOutputColumn, outputLine, column, source, line, sourceColumn, fields, l);
          fields := 0;
        } else {
          if CharToInteger(b) == INVALID {
            return false;
          }
          column, source, line, sourceColumn, partial, fields :=
            ReadDigit(b, column, source, line, sourceColumn, partial, fields, l, remap);
        }
        ip := ip + 1;
        assert LoopView(lastOutputColumn, outputLine, column, source, line, sourceColumn, partial, fields) ==
            Build.StepByte(l, b, remap);
      }
      ok := true;
      ghost var l := LoopView(lastOutputColumn, outputLine, column, source, line, sourceColumn, partial, fields);
      lastOutputColumn := Commit(remap, lastOutputColumn, column, source, line, sourceColumn, fields, l);
      if outputLine < lines {
        PadLines(outputLine, lines);
      }
    }

    /** `addSource`: append the content and the remapped mappings.  Fails when the
        mappings hold a byte outside the alphabet. */
    method AddSource(s: Build.Source) returns (ok: bool)
      requires Valid()
      modifies Repr()
      ensures Valid() && fresh(Repr() - old(Repr()))
      ensures var r := Build.AddSource(old(View()), s);
              ok == r.Some? && (ok ==> View() == r.value)
    {
      ghost var b := View();
      outputBuffer.AddBuffer(s.content);
      var remap := AddNames(s.sources);
      assert LoopView(0, 0, 0, 0, 0, 0, FRESH, 0) == Build.StartLoop(b);
      ok := CopyMappings(s.mappings, s.lines, remap);
    }

    method ToContent() returns (content: seq<Byte>)
      requires Valid()
      ensures content == View().output
    {
      content := outputBuffer.buffer[..outputBuffer.size];
    }

    method ToSourceMap() returns (sourceNames: seq<string>, bytes: seq<Byte>)
      requires Valid()
      ensures sourceNames == View().sources && bytes == View().mappings
    {
      sourceNames, bytes := sources, mappings.buffer[..mappings.size];
    }
  }
}
