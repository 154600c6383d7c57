/**
  What the lines of the event stream do. The claims are about the parser fed with complete lines; a
  line counts as its text after decoding and trimming, which are the library's.
 */
module SseEvents {
  import opened Seqs
  import opened SseStream

  /** The line's text. */
  ghost predicate Reads(lib: Library, line: seq<Byte>, text: string) {
    lib.trim(lib.decodeLossy(line)) == text
  }

  /** Feeding lines one after the other, or all at once. */
  lemma {:induction false} LinesInTurn(lib: Library, room: Room, p: Parser, a: seq<seq<Byte>>, b: seq<seq<Byte>>)
    ensures ParseLines(lib, room, p, a + b) == ParseLines(lib, room, ParseLines(lib, room, p, a), b)
    decreases |b|
  {
    if b == [] {
      assert a + b == a;
    } else {
      LinesInTurn(lib, room, p, a, b[..|b| - 1]);
      assert (a + b)[..|a + b| - 1] == a + b[..|b| - 1];
    }
  }

  lemma OneLine(lib: Library, room: Room, p: Parser, line: seq<Byte>)
    requires p.outcome.None?
    ensures ParseLines(lib, room, p, [line]) == OnLine(lib, room, p, line)
  {
    assert [line][..0] == [];
  }

  lemma PrefixOf(prefix: string, rest: string)
    ensures prefix <= prefix + rest && (prefix + rest)[|prefix|..] == rest
  {
  }

  /** An event line names the type of the event from here on, and does nothing else. */
  lemma EventLine(lib: Library, room: Room, p: Parser, line: seq<Byte>, t: string)
    requires p.outcome.None? && Reads(lib, line, "event: " + t)
    ensures ParseLines(lib, room, p, [line]) == p.(eventType := lib.trim(t))
  {
    OneLine(lib, room, p, line);
    PrefixOf("event: ", t);
  }

  /** A blank line ends the event, and does nothing else. */
  lemma BlankLine(lib: Library, room: Room, p: Parser, line: seq<Byte>)
    requires p.outcome.None? && Reads(lib, line, "")
    ensures ParseLines(lib, room, p, [line]) == p.(eventType := "")
  {
    OneLine(lib, room, p, line);
  }

  /** Every other line that carries no data does nothing at all. */
  lemma OtherLine(lib: Library, room: Room, p: Parser, line: seq<Byte>, text: string)
    requires p.outcome.None? && Reads(lib, line, text) && text != ""
    requires !("event: " <= text) && !("data: " <= text)
    ensures ParseLines(lib, room, p, [line]) == p
  {
    OneLine(lib, room, p, line);
  }

  /** The event types that a data line acts on. */
  predicate IsKnown(eventType: string) {
    eventType == "content_block_delta" || eventType == "message_stop" || eventType == "error"
  }

  /**
    A data line, by the type of its event. A delta with text is sent, or ends the stream if the client
    is gone; "message_stop" stops; an error ends with the API's message or a default; any other type
    is ignored. The event goes on after the line.
   */
  lemma DataLine(lib: Library, room: Room, p: Parser, line: seq<Byte>, d: string)
    requires p.outcome.None? && Reads(lib, line, "data: " + d)
    ensures var after := ParseLines(lib, room, p, [line]);
      && after.eventType == p.eventType
      && (p.eventType == "content_block_delta" && lib.deltaText(d).None? ==> after == p)
      && (p.eventType == "content_block_delta" && lib.deltaText(d).Some? && (room.Some? ==> |p.sent| < room.value) ==>
            after.sent == p.sent + [lib.deltaText(d).value] && after.outcome.None?)
      && (p.eventType == "content_block_delta" && lib.deltaText(d).Some? && room.Some? && room.value <= |p.sent| ==>
            after.sent == p.sent && after.outcome == Some(Disconnected))
      && (p.eventType == "message_stop" ==> after.sent == p.sent && after.outcome == Some(Stopped))
      && (p.eventType == "error" && lib.errorMessage(d).Some? ==>
            after.sent == p.sent && after.outcome == Some(ApiError(lib.errorMessage(d).value)))
      && (p.eventType == "error" && lib.errorMessage(d).None? ==>
            after.sent == p.sent && after.outcome == Some(ApiError("unknown streaming error")))
      && (!IsKnown(p.eventType) ==> after == p)
  {
    OneLine(lib, room, p, line);
    PrefixOf("data: ", d);
    assert ("data: " + d)[0] == 'd' && "event: "[0] == 'e';
  }

  /** An event and its data, wherever they stand in the stream: together they act by the type named. */
  lemma EventWithData(lib: Library, room: Room, done: seq<seq<Byte>>, event: seq<Byte>, data: seq<Byte>,
                      t: string, d: string)
    requires var p := ParseLines(lib, room, Start(), done);
      p.outcome.None? && (room.Some? ==> |p.sent| < room.value)
    requires Reads(lib, event, "event: " + t) && Reads(lib, data, "data: " + d)
    ensures var p, after := ParseLines(lib, room, Start(), done), ParseLines(lib, room, Start(), done + [event, data]);
      && (lib.trim(t) == "content_block_delta" ==>
            && after.outcome.None?
            && after.sent == p.sent + if lib.deltaText(d).Some? then [lib.deltaText(d).value] else [])
      && (lib.trim(t) != "content_block_delta" ==> after.sent == p.sent)
      && (lib.trim(t) == "message_stop" ==> after.outcome == Some(Stopped))
      && (lib.trim(t) == "error" ==>
            after.outcome == Some(ApiError(
              if lib.errorMessage(d).Some? then lib.errorMessage(d).value else "unknown streaming error")))
      && (!IsKnown(lib.trim(t)) ==> after.outcome.None?)
  {
    var p := ParseLines(lib, room, Start(), done);
    var named := p.(eventType := lib.trim(t));
    assert [event, data] == [event] + [data];
    LinesInTurn(lib, room, Start(), done, [event, data]);
    LinesInTurn(lib, room, p, [event], [data]);
    EventLine(lib, room, p, event, t);
    DataLine(lib, room, named, data, d);
  }

  /** Behind a blank line a data line has no effect, whatever event came before. */
  lemma DataBehindBlank(lib: Library, room: Room, p: Parser, blank: seq<Byte>, data: seq<Byte>, d: string)
    requires p.outcome.None? && Reads(lib, blank, "") && Reads(lib, data, "data: " + d)
    ensures ParseLines(lib, room, p, [blank, data]) == p.(eventType := "")
  {
    assert [blank, data] == [blank] + [data];
    LinesInTurn(lib, room, p, [blank], [data]);
    BlankLine(lib, room, p, blank);
    DataLine(lib, room, p.(eventType := ""), data, d);
  }

  // ------------------------------------------------------------ the whole stream

  ghost predicate AllData(chunks: seq<Chunk>) {
    forall k :: 0 <= k < |chunks| ==> chunks[k].Data?
  }

  function BytesOf(chunks: seq<Chunk>): seq<Byte> {
    Flatten(seq(|chunks|, k requires 0 <= k < |chunks| => if chunks[k].Data? then chunks[k].bytes else []))
  }

  /** Without a read error all bytes arrive and the stream just ends; an error ends it there, with its message. */
  lemma {:induction false} ReadErrorEnds(before: seq<Chunk>, message: string, after: seq<Chunk>)
    requires AllData(before)
    ensures Delivered(before) == BytesOf(before) && StreamEnd(before) == Ended
    ensures Delivered(before + [ReadError(message)] + after) == BytesOf(before)
    ensures StreamEnd(before + [ReadError(message)] + after) == ReadFailed(message)
    decreases |before|
  {
    var all := before + [ReadError(message)] + after;
    var parts := seq(|before|, k requires 0 <= k < |before| => if before[k].Data? then before[k].bytes else []);
    if before == [] {
      assert all[0] == ReadError(message);
    } else {
      ReadErrorEnds(before[1..], message, after);
      assert all[1..] == before[1..] + [ReadError(message)] + after && all[0] == before[0];
      var rest := before[1..];
      assert parts[1..] == seq(|rest|, k requires 0 <= k < |rest| => if rest[k].Data? then rest[k].bytes else []);
    }
  }

  /** What the caller gets: all text sent, and the parser's own end if it has one, else that of the stream. */
  lemma BatchReports(lib: Library, room: Room, bytes: seq<Byte>, end: Outcome, sent: seq<string>, outcome: Outcome)
    requires (sent, outcome) == Batch(lib, room, bytes, end)
    ensures var p := ParseLines(lib, room, Start(), Lines(bytes));
      && sent == p.sent
      && (p.outcome.Some? ==> outcome == p.outcome.value)
      && (p.outcome.None? ==> outcome == end)
  {
  }
}
