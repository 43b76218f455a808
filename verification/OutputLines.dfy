/** Assembling lines from output chunks (scripts/bench-gateway-restart.ts): each of two
    streams keeps the unfinished line in a buffer of its own. */
module OutputLines {
  import opened Basics

  // ------------------------------------------------------------- splitting a text

  predicate EndsInReturn(text: string) {
    text != "" && text[|text| - 1] == '\r'
  }

  /** A line break ends the line and takes one carriage return before it along. */
  function StripReturn(text: string): string {
    if EndsInReturn(text) then text[..|text| - 1] else text
  }

  function AddToLast(parts: seq<string>, c: char): seq<string>
    requires parts != []
  {
    if c == '\n' then parts[..|parts| - 1] + [StripReturn(parts[|parts| - 1]), ""]
    else parts[..|parts| - 1] + [parts[|parts| - 1] + [c]]
  }

  /** `text.split(/\r?\n/)` */
  function SplitLines(text: string): (parts: seq<string>)
    ensures parts != []
  {
    if text == "" then [""] else AddToLast(SplitLines(text[..|text| - 1]), text[|text| - 1])
  }

  function Init<T>(s: seq<T>): seq<T>
    requires s != []
  {
    s[..|s| - 1]
  }

  function Last<T>(s: seq<T>): T
    requires s != []
  {
    s[|s| - 1]
  }

  lemma {:induction false} AddChar(text: string, c: char)
    ensures SplitLines(text + [c]) == AddToLast(SplitLines(text), c)
  {
    assert (text + [c])[..|text|] == text;
  }

  lemma {:induction false} AddBehind(first: seq<string>, more: seq<string>, c: char)
    requires more != []
    ensures AddToLast(first + more, c) == first + AddToLast(more, c)
  {
  }

  lemma {:induction false} OneCharMore(a: string, shorter: string, b: string, c: char)
    requires b == shorter + [c]
    ensures a + b == (a + shorter) + [c]
  {
  }

  /** Where the text is cut does not matter: splitting goes on from the unfinished line,
      even between a carriage return and its line feed. */
  lemma {:induction false} SplitInTwo(a: string, b: string)
    ensures SplitLines(a + b) == Init(SplitLines(a)) + SplitLines(Last(SplitLines(a)) + b)
    decreases |b|
  {
    hide SplitLines, AddToLast, StripReturn, IsUnbroken;
    var carry := Last(SplitLines(a));
    if b == "" {
      assert a + b == a && carry + b == carry;
      LastIsUnbroken(a);
      UnbrokenIsOneLine(carry);
      assert SplitLines(a) == Init(SplitLines(a)) + [carry];
    } else {
      var shorter, c := Init(b), Last(b);
      SplitInTwo(a, shorter);
      OneCharMore(a, shorter, b, c);
      OneCharMore(carry, shorter, b, c);
      hide Init, Last;
      AddChar(a + shorter, c);
      AddChar(carry + shorter, c);
      AddBehind(Init(SplitLines(a)), SplitLines(carry + shorter), c);
    }
  }

  predicate IsUnbroken(text: string) {
    forall i | 0 <= i < |text| :: text[i] != '\n'
  }

  lemma {:induction false} LastIsUnbroken(text: string)
    ensures IsUnbroken(Last(SplitLines(text)))
  {
    if text != "" { LastIsUnbroken(Init(text)); }
  }

  lemma {:induction false} UnbrokenIsOneLine(text: string)
    requires IsUnbroken(text)
    ensures SplitLines(text) == [text]
  {
    if text != "" {
      UnbrokenIsOneLine(Init(text));
      assert text == Init(text) + [Last(text)];
    }
  }

  // ------------------------------------------------------------------ what lines are

  /** A finished line and whether CR LF ended it. */
  datatype Line = Line(text: string, crlf: bool)

  predicate IsLine(line: Line) {
    IsUnbroken(line.text) && (!line.crlf ==> !EndsInReturn(line.text))
  }

  function Written(lines: seq<Line>, carry: string): string {
    if lines == [] then carry
    else lines[0].text + (if lines[0].crlf then "\r\n" else "\n") + Written(lines[1..], carry)
  }

  function Texts(lines: seq<Line>): (texts: seq<string>)
    ensures |texts| == |lines|
  {
    seq(|lines|, i requires 0 <= i < |lines| => lines[i].text)
  }

  /** A text written as lines splits into exactly those lines and the rest. */
  lemma {:induction false} WrittenLinesSplit(lines: seq<Line>, carry: string)
    requires (forall i | 0 <= i < |lines| :: IsLine(lines[i])) && IsUnbroken(carry)
    ensures SplitLines(Written(lines, carry)) == Texts(lines) + [carry]
    decreases |lines|
  {
    if lines == [] {
      UnbrokenIsOneLine(carry);
      assert Texts(lines) + [carry] == [carry];
    } else {
      FirstLine(lines, carry);
      hide *;
      WrittenLinesSplit(lines[1..], carry);
      OneLine(lines[0]);
      SplitAfterLine(lines[0], Written(lines[1..], carry));
      BehindFirst(lines[0].text, Texts(lines[1..]), [carry]);
    }
  }

  lemma BehindFirst(text: string, texts: seq<string>, last: seq<string>)
    ensures [text] + (texts + last) == ([text] + texts) + last
  {
  }

  lemma {:induction false} FirstLine(lines: seq<Line>, carry: string)
    requires lines != []
    ensures Written(lines, carry) == (lines[0].text + if lines[0].crlf then "\r\n" else "\n")
              + Written(lines[1..], carry)
    ensures Texts(lines) == [lines[0].text] + Texts(lines[1..])
  {
  }

  lemma {:induction false} SplitAfterLine(line: Line, rest: string)
    requires SplitLines(line.text + if line.crlf then "\r\n" else "\n") == [line.text, ""]
    ensures SplitLines((line.text + if line.crlf then "\r\n" else "\n") + rest) == [line.text] + SplitLines(rest)
  {
    SplitInTwo(line.text + if line.crlf then "\r\n" else "\n", rest);
    assert Init([line.text, ""]) == [line.text] && "" + rest == rest;
  }

  lemma {:induction false} OneLine(line: Line)
    requires IsLine(line)
    ensures SplitLines(line.text + if line.crlf then "\r\n" else "\n") == [line.text, ""]
  {
    UnbrokenIsOneLine(line.text);
    if line.crlf {
      AddChar(line.text, '\r');
      assert line.text + "\r\n" == (line.text + ['\r']) + ['\n'];
      AddChar(line.text + ['\r'], '\n');
      assert (line.text + ['\r'])[..|line.text|] == line.text;
    } else {
      AddChar(line.text, '\n');
    }
  }

  /** And every text is so written: the lines of a text are determined by it. */
  lemma {:induction false} LinesOf(text: string) returns (lines: seq<Line>, carry: string)
    ensures (forall i | 0 <= i < |lines| :: IsLine(lines[i])) && IsUnbroken(carry) && text == Written(lines, carry)
  {
    if text == "" {
      lines, carry := [], "";
    } else {
      var before, c := Init(text), Last(text);
      lines, carry := LinesOf(before);
      if c == '\n' {
        var line := Line(StripReturn(carry), EndsInReturn(carry));
        WrittenMore(lines, carry, line);
        lines, carry := lines + [line], "";
      } else {
        WrittenLonger(lines, carry, c);
        carry := carry + [c];
      }
      assert text == before + [c];
    }
  }

  lemma {:induction false} WrittenLonger(lines: seq<Line>, carry: string, c: char)
    ensures Written(lines, carry + [c]) == Written(lines, carry) + [c]
    decreases |lines|
  {
    if lines != [] { WrittenLonger(lines[1..], carry, c); }
  }

  lemma {:induction false} WrittenMore(lines: seq<Line>, carry: string, line: Line)
    requires line == Line(StripReturn(carry), EndsInReturn(carry))
    ensures Written(lines + [line], "") == Written(lines, carry) + ['\n']
    decreases |lines|
  {
    if lines == [] {
      assert (lines + [line])[1..] == [];
      assert EndsInReturn(carry) ==> carry == StripReturn(carry) + ['\r'];
    } else {
      WrittenMore(lines[1..], carry, line);
      assert (lines + [line])[1..] == lines[1..] + [line];
    }
  }

  /** A list of strings is the split of a text exactly if the text is those strings
      written one per line. */
  lemma {:induction false} SplitsExactlyLines(text: string, parts: seq<string>)
    ensures parts == SplitLines(text) <==>
              exists lines: seq<Line>, carry: string ::
                && (forall i | 0 <= i < |lines| :: IsLine(lines[i])) && IsUnbroken(carry)
                && text == Written(lines, carry) && parts == Texts(lines) + [carry]
  {
    hide *;
    var lines, carry := LinesOf(text);
    WrittenLinesSplit(lines, carry);
    forall lines: seq<Line>, carry: string
      | (forall i | 0 <= i < |lines| :: IsLine(lines[i])) && IsUnbroken(carry) && text == Written(lines, carry)
      ensures SplitLines(text) == Texts(lines) + [carry]
    {
      WrittenLinesSplit(lines, carry);
    }
  }

  // -------------------------------------------------------------------- the streams

  datatype Stream = Stdout | Stderr

  datatype Chunk = Chunk(stream: Stream, text: string)

  datatype Emitted = Emitted(stream: Stream, line: string)

  datatype Collected = Collected(carry: string, lines: seq<string>)

  function CollectOutputLines(carry: string, chunk: string): Collected {
    var parts := SplitLines(carry + chunk);
    Collected(Last(parts), Init(parts))
  }

  /** All text a stream delivered, and all its lines that were passed on. */
  function TextOf(chunks: seq<Chunk>, stream: Stream): string {
    if chunks == [] then ""
    else TextOf(Init(chunks), stream) + if Last(chunks).stream == stream then Last(chunks).text else ""
  }

  function LinesOn(emitted: seq<Emitted>, stream: Stream): seq<string> {
    if emitted == [] then []
    else LinesOn(Init(emitted), stream) + if Last(emitted).stream == stream then [Last(emitted).line] else []
  }

  const KEPT_CHUNKS := 30

  lemma {:induction false} LinesOnOneMore(emitted: seq<Emitted>, stream: Stream, line: string, other: Stream)
    ensures LinesOn(emitted + [Emitted(stream, line)], other)
         == LinesOn(emitted, other) + if stream == other then [line] else []
  {
    assert Init(emitted + [Emitted(stream, line)]) == emitted;
  }

  lemma {:induction false} TextOfOneMore(chunks: seq<Chunk>, chunk: Chunk, stream: Stream)
    ensures TextOf(chunks + [chunk], stream)
         == TextOf(chunks, stream) + if chunk.stream == stream then chunk.text else ""
  {
    assert Init(chunks + [chunk]) == chunks;
  }

  /** The lines passed on and the unfinished one are the split of the stream's text. */
  ghost predicate IsRead(received: seq<Chunk>, emitted: seq<Emitted>, buffer: string, stream: Stream) {
    SplitLines(TextOf(received, stream)) == LinesOn(emitted, stream) + [buffer]
  }

  lemma {:induction false} ChunkIsRead(received: seq<Chunk>, before: seq<Emitted>, buffer: string, chunk: Chunk,
        after: seq<Emitted>)
    requires IsRead(received, before, buffer, chunk.stream)
    requires LinesOn(after, chunk.stream) == LinesOn(before, chunk.stream)
              + CollectOutputLines(buffer, chunk.text).lines
    ensures IsRead(received + [chunk], after, CollectOutputLines(buffer, chunk.text).carry, chunk.stream)
  {
    TextOfOneMore(received, chunk, chunk.stream);
    SplitInTwo(TextOf(received, chunk.stream), chunk.text);
    hide SplitLines, TextOf, LinesOn;
  }

  lemma {:induction false} OtherIsRead(received: seq<Chunk>, before: seq<Emitted>, buffer: string, chunk: Chunk,
                                       after: seq<Emitted>, other: Stream)
    requires IsRead(received, before, buffer, other) && other != chunk.stream
    requires LinesOn(after, other) == LinesOn(before, other)
    ensures IsRead(received + [chunk], after, buffer, other)
  {
    TextOfOneMore(received, chunk, other);
    assert TextOf(received, other) + "" == TextOf(received, other);
  }

  function LastKept(texts: seq<string>): seq<string> {
    if |texts| > KEPT_CHUNKS then texts[|texts| - KEPT_CHUNKS..] else texts
  }

  function TextsOf(chunks: seq<Chunk>): (texts: seq<string>) {
    if chunks == [] then [] else TextsOf(Init(chunks)) + [Last(chunks).text]
  }

  /** The texts of the last chunks. */
  ghost predicate KeepsTail(output: seq<string>, received: seq<Chunk>) {
    var texts := TextsOf(received);
    output == if |texts| <= 30 then texts else texts[|texts| - 30..]
  }

  lemma {:induction false} TailOneMore(output: seq<string>, received: seq<Chunk>, chunk: Chunk)
    requires KeepsTail(output, received)
    ensures KeepsTail(LastKept(output + [chunk.text]), received + [chunk])
  {
    assert Init(received + [chunk]) == received;
    LastOfLast(TextsOf(received), chunk.text);
  }

  lemma {:induction false} LastOfLast(texts: seq<string>, text: string)
    ensures LastKept(LastKept(texts) + [text]) == LastKept(texts + [text])
  {
    if |texts| > KEPT_CHUNKS {
      assert LastKept(texts) + [text] == (texts + [text])[|texts| - KEPT_CHUNKS..];
    }
  }

  /** The handler of output chunks with its buffers. `received` is history. */
  class OutputReader {
    var stdout: string
    var stderr: string
    var output: seq<string>
    var emitted: seq<Emitted>
    ghost var received: seq<Chunk>

    function Buffer(stream: Stream): string
      reads this
    {
      if stream.Stdout? then stdout else stderr
    }

    /** Per stream, the lines passed on and the buffer are the split of all its text,
        however it was cut into chunks and mixed with the other stream's. */
    ghost predicate Valid()
      reads this
    {
      && IsRead(received, emitted, stdout, Stdout) && IsRead(received, emitted, stderr, Stderr)
      && KeepsTail(output, received)
    }

    constructor ()
      ensures Valid() && received == [] && emitted == []
    {
      stdout, stderr, output, emitted, received := "", "", [], [], [];
    }

    method OnLine(stream: Stream, line: string)
      modifies this`emitted
      ensures emitted == old(emitted) + [Emitted(stream, line)]
    {
      emitted := emitted + [Emitted(stream, line)];
    }

    method Keep(text: string)
      modifies this`output
      ensures output == LastKept(old(output) + [text])
    {
      output := output + [text];
      if |output| > KEPT_CHUNKS {
        output := output[|output| - KEPT_CHUNKS..];
      }
    }

    method OnLines(stream: Stream, lines: seq<string>)
      modifies this`emitted
      ensures old(emitted) <= emitted
      ensures LinesOn(emitted, stream) == LinesOn(old(emitted), stream) + lines
      ensures forall other | other != stream :: LinesOn(emitted, other) == LinesOn(old(emitted), other)
    {
      hide LinesOn;
      for i := 0 to |lines|
        invariant old(emitted) <= emitted
        invariant LinesOn(emitted, stream) == LinesOn(old(emitted), stream) + lines[..i]
        invariant forall other | other != stream :: LinesOn(emitted, other) == LinesOn(old(emitted), other)
      {
        forall other { LinesOnOneMore(emitted, stream, lines[i], other); }
        OnLine(stream, lines[i]);
        assert lines[..i + 1] == lines[..i] + [lines[i]];
      }
      assert lines[..|lines|] == lines;
    }

    method OnChunk(chunk: Chunk)
      requires Valid()
      modifies this
      ensures Valid() && received == old(received) + [chunk] && old(emitted) <= emitted
    {
      hide IsRead, LinesOn, SplitLines, TextOf, KeepsTail, LastKept, CollectOutputLines;
      TailOneMore(output, received, chunk);
      Keep(chunk.text);
      var parsed := CollectOutputLines(Buffer(chunk.stream), chunk.text);
      OnLines(chunk.stream, parsed.lines);
      ChunkIsRead(received, old(emitted), Buffer(chunk.stream), chunk, emitted);
      if chunk.stream.Stdout? {
        OtherIsRead(received, old(emitted), stderr, chunk, emitted, Stderr);
        stdout := parsed.carry;
      } else {
        OtherIsRead(received, old(emitted), stdout, chunk, emitted, Stdout);
        stderr := parsed.carry;
      }
      received := received + [chunk];
    }

    method FlushStream(stream: Stream)
      modifies this`stdout, this`stderr, this`emitted
      ensures Buffer(stream) == ""
      ensures forall other | other != stream ::
                Buffer(other) == old(Buffer(other)) && LinesOn(emitted, other) == LinesOn(old(emitted), other)
      ensures LinesOn(emitted, stream)
           == LinesOn(old(emitted), stream) + if old(Buffer(stream)) == "" then [] else [old(Buffer(stream))]
      ensures emitted == old(emitted) + if old(Buffer(stream)) == "" then [] else [Emitted(stream, old(Buffer(stream)))]
    {
      hide LinesOn;
      var line := Buffer(stream);
      if line == "" {
        return;
      }
      if stream.Stdout? {
        stdout := "";
      } else {
        stderr := "";
      }
      forall other { LinesOnOneMore(emitted, stream, line, other); }
      OnLine(stream, line);
    }

    /** At the very end a non-empty unfinished line is passed on, stdout's first. */
    method Flush(flushPartial: bool)
      requires Valid()
      modifies this`stdout, this`stderr, this`emitted
      ensures !flushPartial ==> Valid() && emitted == old(emitted) && stdout == old(stdout) && stderr == old(stderr)
      ensures flushPartial ==>
                && stdout == "" && stderr == ""
                && LinesOn(emitted, Stdout) == LinesIn(TextOf(received, Stdout))
                && LinesOn(emitted, Stderr) == LinesIn(TextOf(received, Stderr))
                && emitted == old(emitted) + (if old(stdout) == "" then [] else [Emitted(Stdout, old(stdout))])
                                           + (if old(stderr) == "" then [] else [Emitted(Stderr, old(stderr))])
    {
      hide LinesOn, SplitLines, TextOf, LinesIn;
      if !flushPartial {
        return;
      }
      FlushStream(Stdout);
      FlushStream(Stderr);
      FlushedLines(received, old(emitted), old(stdout), emitted, Stdout);
      FlushedLines(received, old(emitted), old(stderr), emitted, Stderr);
    }
  }

  /** The lines of a text; the rest counts if it is not empty. */
  function LinesIn(text: string): seq<string> {
    var parts := SplitLines(text);
    if Last(parts) == "" then Init(parts) else parts
  }

  lemma {:induction false} FlushedLines(received: seq<Chunk>, before: seq<Emitted>, buffer: string,
        after: seq<Emitted>, stream: Stream)
    requires IsRead(received, before, buffer, stream)
    requires LinesOn(after, stream) == LinesOn(before, stream) + if buffer == "" then [] else [buffer]
    ensures LinesOn(after, stream) == LinesIn(TextOf(received, stream))
  {
    hide LinesOn, SplitLines, TextOf;
  }

  /** Reading any chunks of both streams and flushing passes on, for each stream, the
      lines of its whole text: cutting and mixing leave no trace. */
  method ReadAll(chunks: seq<Chunk>) returns (emitted: seq<Emitted>)
    ensures LinesOn(emitted, Stdout) == LinesIn(TextOf(chunks, Stdout))
    ensures LinesOn(emitted, Stderr) == LinesIn(TextOf(chunks, Stderr))
  {
    hide *;
    var reader := new OutputReader();
    for i := 0 to |chunks|
      invariant fresh(reader) && reader.Valid() && reader.received == chunks[..i]
    {
      reader.OnChunk(chunks[i]);
      reader.Flush(false);
      assert chunks[..i + 1] == chunks[..i] + [chunks[i]];
    }
    assert chunks[..|chunks|] == chunks;
    reader.Flush(true);
    emitted := reader.emitted;
  }
}
