/**
  The incremental parser of the streaming API's server-sent events: network chunks go into a byte
  buffer, complete lines come out of it, and the type of the current event is remembered between
  lines. The UTF-8 decoding, the trimming and the two JSON extractors are library calls and stay
  uninterpreted, as parameters.
 */
module SseStream {
  import opened Seqs

  type Byte = b: int | 0 <= b < 256

  const NEWLINE: Byte := 10

  datatype Library = Library(
    decodeLossy: seq<Byte> -> string, trim: string -> string,
    deltaText: string -> Option<string>, errorMessage: string -> Option<string>)

  /** What the network delivers: bytes, or a read error that ends the stream. */
  datatype Chunk = Data(bytes: seq<Byte>) | ReadError(message: string)

  datatype Outcome = Ended | Stopped | Disconnected | ApiError(message: string) | ReadFailed(message: string)

  /** `outcome` is None while the parser is running. */
  datatype Parser = Parser(eventType: string, sent: seq<string>, outcome: Option<Outcome>)

  /** The receiver takes `room` messages and is then gone; None means it never goes. */
  type Room = Option<nat>

  function StripPrefix(s: string, prefix: string): Option<string> {
    if prefix <= s then Some(s[|prefix|..]) else None
  }

  function Send(p: Parser, text: string, room: Room): Parser {
    if room.Some? && |p.sent| >= room.value then p.(outcome := Some(Disconnected)) else p.(sent := p.sent + [text])
  }

  function OnData(lib: Library, room: Room, p: Parser, data: string): Parser {
    if p.eventType == "content_block_delta" then
      var text := lib.deltaText(data);
      if text.Some? then Send(p, text.value, room) else p
    else if p.eventType == "message_stop" then p.(outcome := Some(Stopped))
    else if p.eventType == "error" then
      var message := lib.errorMessage(data);
      p.(outcome := Some(ApiError(if message.Some? then message.value else "unknown streaming error")))
    else p
  }

  /** One complete line. */
  function OnLine(lib: Library, room: Room, p: Parser, bytes: seq<Byte>): Parser {
    var line := lib.trim(lib.decodeLossy(bytes));
    if line == "" then p.(eventType := "")
    else
      var eventType := StripPrefix(line, "event: ");
      if eventType.Some? then p.(eventType := lib.trim(eventType.value))
      else
        var data := StripPrefix(line, "data: ");
        if data.Some? then OnData(lib, room, p, data.value) else p
  }

  // ------------------------------------------------------------ the batch parser

  function Newline(s: seq<Byte>): (r: Option<nat>)
    ensures r.Some? ==> r.value < |s|
  {
    if s == [] then None
    else if s[0] == NEWLINE then Some(0)
    else
      var rest := Newline(s[1..]);
      if rest.Some? then Some(rest.value + 1) else None
  }

  /** The first newline, if there is one. */
  lemma {:induction false} NewlineIsFirst(s: seq<Byte>)
    ensures var r := Newline(s);
      && (r.Some? ==> s[r.value] == NEWLINE && forall k :: 0 <= k < r.value ==> s[k] != NEWLINE)
      && (r.None? ==> NEWLINE !in s)
  {
    if s != [] && s[0] != NEWLINE {
      NewlineIsFirst(s[1..]);
      assert forall k :: 0 < k < |s| ==> s[k] == s[1..][k - 1];
    }
  }

  /** The complete lines of a byte string, each with its newline. */
  function Lines(s: seq<Byte>): seq<seq<Byte>> {
    var i := Newline(s);
    if i.None? then [] else [s[..i.value + 1]] + Lines(s[i.value + 1..])
  }

  /** What follows the last newline. */
  function Tail(s: seq<Byte>): seq<Byte> {
    var i := Newline(s);
    if i.None? then s else Tail(s[i.value + 1..])
  }

  /** Feeds the lines to the parser until it ends. */
  function ParseLines(lib: Library, room: Room, p: Parser, lines: seq<seq<Byte>>): Parser {
    if lines == [] then p
    else
      var before := ParseLines(lib, room, p, lines[..|lines| - 1]);
      if before.outcome.Some? then before else OnLine(lib, room, before, lines[|lines| - 1])
  }

  /** The bytes delivered before the first read error. */
  function Delivered(chunks: seq<Chunk>): seq<Byte> {
    if chunks == [] || chunks[0].ReadError? then [] else chunks[0].bytes + Delivered(chunks[1..])
  }

  /** How the stream itself ends. */
  function StreamEnd(chunks: seq<Chunk>): Outcome {
    if chunks == [] then Ended
    else if chunks[0].ReadError? then ReadFailed(chunks[0].message)
    else StreamEnd(chunks[1..])
  }

  function Start(): Parser {
    Parser("", [], None)
  }

  /** The reference: one pass over all bytes at once. */
  function Batch(lib: Library, room: Room, bytes: seq<Byte>, end: Outcome): (seq<string>, Outcome) {
    var p := ParseLines(lib, room, Start(), Lines(bytes));
    (p.sent, if p.outcome.Some? then p.outcome.value else end)
  }

  // ------------------------------------------------------------ the incremental parser

  method MessageStream(lib: Library, room: Room, chunks: seq<Chunk>) returns (sent: seq<string>, outcome: Outcome)
    ensures (sent, outcome) == Batch(lib, room, Delivered(chunks), StreamEnd(chunks))
  {
    var byteBuf: seq<Byte> := [];
    var p := Start();
    ghost var got: seq<Byte> := [];
    var i := 0;
    while i < |chunks|
      invariant 0 <= i <= |chunks| && p.outcome.None?
      invariant Delivered(chunks) == got + Delivered(chunks[i..]) && StreamEnd(chunks) == StreamEnd(chunks[i..])
      invariant p == ParseLines(lib, room, Start(), Lines(got)) && byteBuf == Tail(got)
    {
      if chunks[i].ReadError? {
        assert Delivered(chunks) == got;
        return p.sent, ReadFailed(chunks[i].message);
      }
      assert chunks[i..][1..] == chunks[i + 1..];
      AppendAssoc(got, chunks[i].bytes, Delivered(chunks[i + 1..]));
      p, byteBuf :=
        DrainLines(lib, room, p, byteBuf + chunks[i].bytes, got, chunks[i].bytes, Delivered(chunks[i + 1..]));
      if p.outcome.Some? {
        return p.sent, p.outcome.value;
      }
      got := got + chunks[i].bytes;
      i := i + 1;
    }
    assert got + [] == got;
    sent, outcome := p.sent, Ended;
  }

  /** The inner loop: takes complete lines out of the buffer. `later` are the bytes still to come. */
  method DrainLines(lib: Library, room: Room, start: Parser, buffer: seq<Byte>,
                    ghost got: seq<Byte>, ghost chunk: seq<Byte>, ghost later: seq<Byte>)
    returns (p: Parser, byteBuf: seq<Byte>)
    requires start == ParseLines(lib, room, Start(), Lines(got)) && start.outcome.None?
    requires buffer == Tail(got) + chunk
    ensures p.outcome.None? ==>
      p == ParseLines(lib, room, Start(), Lines(got + chunk)) && byteBuf == Tail(got + chunk)
    ensures p.outcome.Some? ==> p == ParseLines(lib, room, Start(), Lines(got + chunk + later))
  {
    p, byteBuf := start, buffer;
    ghost var all, done := got + chunk, Lines(got);
    LinesOfConcat(got, chunk);
    var newline := Newline(byteBuf);
    while newline.Some?
      invariant newline == Newline(byteBuf) && p.outcome.None?
      invariant Drained(all, done, byteBuf)
      invariant p == ParseLines(lib, room, Start(), done)
      decreases |byteBuf|
    {
      TakeLine(all, done, byteBuf);
      var lineBytes := byteBuf[..newline.value + 1];
      byteBuf := byteBuf[newline.value + 1..];
      p := ParseLine(lib, room, p, lineBytes, done);
      done := done + [lineBytes];
      if p.outcome.Some? {
        StoppedEarly(lib, room, all, later, done, Lines(byteBuf));
        return;
      }
      newline := Newline(byteBuf);
    }
    assert done + [] == done;
  }

  /** The lines taken so far and those still in the buffer are the lines of all bytes; the tails agree. */
  ghost predicate Drained(all: seq<Byte>, done: seq<seq<Byte>>, buf: seq<Byte>) {
    Lines(all) == done + Lines(buf) && Tail(all) == Tail(buf)
  }

  lemma TakeLine(all: seq<Byte>, done: seq<seq<Byte>>, buf: seq<Byte>)
    requires Newline(buf).Some? && Drained(all, done, buf)
    ensures var i := Newline(buf).value;
      Drained(all, done + [buf[..i + 1]], buf[i + 1..])
  {
    var i := Newline(buf).value;
    AppendAssoc(done, [buf[..i + 1]], Lines(buf[i + 1..]));
  }

  /** The body of the inner loop. */
  method ParseLine(lib: Library, room: Room, p: Parser, lineBytes: seq<Byte>, ghost done: seq<seq<Byte>>)
    returns (p': Parser)
    requires p == ParseLines(lib, room, Start(), done) && p.outcome.None?
    ensures p' == ParseLines(lib, room, Start(), done + [lineBytes])
  {
    assert (done + [lineBytes])[..|done|] == done;
    p' := OnLine(lib, room, p, lineBytes);
  }

  // ------------------------------------------------------------ lines

  lemma {:induction false} LinesOfConcat(a: seq<Byte>, b: seq<Byte>)
    ensures Lines(a + b) == Lines(a) + Lines(Tail(a) + b)
    ensures Tail(a + b) == Tail(Tail(a) + b)
    decreases |a|
  {
    var i := Newline(a);
    if i.Some? {
      LinesOfConcat(a[i.value + 1..], b);
      OneMoreLine(a, b);
    }
  }

  /** If the laws hold behind the first line of a, they hold of a. */
  lemma OneMoreLine(a: seq<Byte>, b: seq<Byte>)
    requires Newline(a).Some?
    requires var rest := a[Newline(a).value + 1..];
      Lines(rest + b) == Lines(rest) + Lines(Tail(rest) + b) && Tail(rest + b) == Tail(Tail(rest) + b)
    ensures Lines(a + b) == Lines(a) + Lines(Tail(a) + b) && Tail(a + b) == Tail(Tail(a) + b)
  {
    var i := Newline(a).value;
    var first, rest := a[..i + 1], a[i + 1..];
    CutFirstLine(a, b);
    assert Lines(a) == [first] + Lines(rest) && Tail(a) == Tail(rest);
    AppendAssoc([first], Lines(rest), Lines(Tail(rest) + b));
  }

  lemma CutFirstLine(a: seq<Byte>, b: seq<Byte>)
    requires Newline(a).Some?
    ensures var i := Newline(a).value;
      && Lines(a + b) == [a[..i + 1]] + Lines(a[i + 1..] + b)
      && Tail(a + b) == Tail(a[i + 1..] + b)
  {
    var i := Newline(a).value;
    NewlineOfConcat(a, b);
    assert (a + b)[..i + 1] == a[..i + 1];
    assert (a + b)[i + 1..] == a[i + 1..] + b;
  }

  lemma NewlineOfConcat(a: seq<Byte>, b: seq<Byte>)
    requires Newline(a).Some?
    ensures Newline(a + b) == Newline(a)
  {
    NewlineIsFirst(a);
    NewlineIsFirst(a + b);
    assert (a + b)[Newline(a).value] == NEWLINE;
    assert forall k :: 0 <= k < Newline(a).value ==> (a + b)[k] == a[k];
  }

  /** A newline-terminated line with no other newline in it. */
  ghost predicate IsLine(line: seq<Byte>) {
    line != [] && line[|line| - 1] == 10 && 10 !in line[..|line| - 1]
  }

  /** The decomposition into complete lines and a rest without newline: it exists and is unique. */
  ghost predicate IsDecomposition(s: seq<Byte>, lines: seq<seq<Byte>>, tail: seq<Byte>) {
    && s == Flatten(lines) + tail && 10 !in tail
    && forall k :: 0 <= k < |lines| ==> IsLine(lines[k])
  }

  lemma {:induction false} LinesDecompose(s: seq<Byte>)
    ensures IsDecomposition(s, Lines(s), Tail(s))
    decreases |s|
  {
    var i := Newline(s);
    NewlineIsFirst(s);
    if i.Some? {
      var first, rest := s[..i.value + 1], s[i.value + 1..];
      LinesDecompose(rest);
      UpToNewlineIsLine(s);
      ConsDecomposition(first, rest, Lines(rest), Tail(rest));
      assert s == first + rest;
    } else {
      assert Flatten<Byte>([]) + s == s;
    }
  }

  lemma UpToNewlineIsLine(s: seq<Byte>)
    requires Newline(s).Some?
    ensures IsLine(s[..Newline(s).value + 1])
  {
    var i := Newline(s).value;
    NewlineIsFirst(s);
    assert s[..i + 1][..i] == s[..i];
  }

  lemma ConsDecomposition(first: seq<Byte>, rest: seq<Byte>, lines: seq<seq<Byte>>, tail: seq<Byte>)
    requires IsLine(first) && IsDecomposition(rest, lines, tail)
    ensures IsDecomposition(first + rest, [first] + lines, tail)
  {
    assert ([first] + lines)[1..] == lines;
    AppendAssoc(first, Flatten(lines), tail);
  }

  lemma {:induction false} DecompositionIsUnique(s: seq<Byte>, lines: seq<seq<Byte>>, tail: seq<Byte>)
    requires IsDecomposition(s, lines, tail)
    ensures lines == Lines(s) && tail == Tail(s)
    decreases |lines|
  {
    if lines == [] {
      assert s == tail;
      NewlineIsFirst(s);
    } else {
      var first, rest := lines[0], Flatten(lines[1..]) + tail;
      AppendAssoc(first, Flatten(lines[1..]), tail);
      assert s == first + rest;
      FirstLine(first, rest);
      DecompositionIsUnique(rest, lines[1..], tail);
    }
  }

  lemma FirstLine(first: seq<Byte>, rest: seq<Byte>)
    requires IsLine(first)
    ensures Lines(first + rest) == [first] + Lines(rest) && Tail(first + rest) == Tail(rest)
  {
    NewlineIsFirst(first);
    assert first[|first| - 1] == NEWLINE;
    assert forall k :: 0 <= k < |first| - 1 ==> first[k] == first[..|first| - 1][k];
    NewlineOfConcat(first, rest);
    assert (first + rest)[..|first|] == first && (first + rest)[|first|..] == rest;
  }

  // ------------------------------------------------------------ what does not matter

  lemma {:induction false} LaterLinesIgnored(lib: Library, room: Room, done: seq<seq<Byte>>, more: seq<seq<Byte>>)
    requires ParseLines(lib, room, Start(), done).outcome.Some?
    ensures ParseLines(lib, room, Start(), done + more) == ParseLines(lib, room, Start(), done)
    decreases |more|
  {
    if more == [] {
      assert done + more == done;
    } else {
      LaterLinesIgnored(lib, room, done, more[..|more| - 1]);
      assert (done + more)[..|done + more| - 1] == done + more[..|more| - 1];
    }
  }

  /** Once the parser has ended, neither the rest of the buffer nor the rest of the stream changes the result. */
  lemma StoppedEarly(lib: Library, room: Room, got: seq<Byte>, later: seq<Byte>,
                     done: seq<seq<Byte>>, rest: seq<seq<Byte>>)
    requires Lines(got) == done + rest && ParseLines(lib, room, Start(), done).outcome.Some?
    ensures ParseLines(lib, room, Start(), Lines(got + later)) == ParseLines(lib, room, Start(), done)
  {
    var more := Lines(Tail(got) + later);
    LinesOfConcat(got, later);
    AppendAssoc(done, rest, more);
    LaterLinesIgnored(lib, room, done, rest + more);
  }

  /** A last line without newline is dropped. */
  lemma UnterminatedLineIsDropped(lib: Library, room: Room, bytes: seq<Byte>, tail: seq<Byte>, end: Outcome)
    requires NEWLINE !in Tail(bytes) + tail
    ensures Batch(lib, room, bytes + tail, end) == Batch(lib, room, bytes, end)
  {
    LinesOfConcat(bytes, tail);
    NewlineIsFirst(Tail(bytes) + tail);
    assert Lines(bytes) + [] == Lines(bytes);
  }

  /** Cutting one chunk in two changes nothing the parser depends on, and so no delta and no outcome. */
  lemma {:induction false} SplittingAChunk(before: seq<Chunk>, a: seq<Byte>, b: seq<Byte>, after: seq<Chunk>)
    ensures Delivered(before + [Data(a + b)] + after) == Delivered(before + [Data(a), Data(b)] + after)
    ensures StreamEnd(before + [Data(a + b)] + after) == StreamEnd(before + [Data(a), Data(b)] + after)
    decreases |before|
  {
    if before == [] {
      var whole, halves := [Data(a + b)] + after, [Data(a), Data(b)] + after;
      assert [] + [Data(a + b)] + after == whole && [] + [Data(a), Data(b)] + after == halves;
      assert whole[1..] == after && halves[1..] == [Data(b)] + after && halves[1..][1..] == after;
      AppendAssoc(a, b, Delivered(after));
    } else {
      SplittingAChunk(before[1..], a, b, after);
      assert (before + [Data(a + b)] + after)[1..] == before[1..] + [Data(a + b)] + after;
      assert (before + [Data(a), Data(b)] + after)[1..] == before[1..] + [Data(a), Data(b)] + after;
    }
  }
}
