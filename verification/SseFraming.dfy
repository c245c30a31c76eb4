/** Printing event frames and reading them back: the broker's frame format and the debug client's
    incremental reader. */
module SseFraming {
  import opened Collections
  import opened Text

  datatype Frame =
    | EventFrame(id: nat, eventType: string, data: string)
    | LineFrame(line: string)  // a retry hint or a comment

  predicate WellFormed(f: Frame) {
    match f
    case EventFrame(_, eventType, data) => '\n' !in eventType && '\n' !in data
    case LineFrame(line) => line != "" && '\n' !in line
  }

  function Body(f: Frame): string {
    match f
    case EventFrame(id, eventType, data) =>
      "id: " + Decimal(id) + "\n" + ("event: " + eventType + "\n" + ("data: " + data))
    case LineFrame(line) => line
  }

  function Serialize(f: Frame): string { Body(f) + "\n\n" }

  function SerializeAll(frames: seq<Frame>): string {
    if frames == [] then "" else Serialize(frames[0]) + SerializeAll(frames[1..])
  }

  // ---------------------------------------------------------------- splitting the stream at blank lines

  predicate BlankAt(s: string, j: int) { 0 <= j < |s| - 1 && s[j] == '\n' && s[j + 1] == '\n' }

  /** The leftmost position of a blank line, or -1. */
  function FirstBlank(s: string): (i: int)
    ensures i == -1 || BlankAt(s, i)
    ensures forall j | BlankAt(s, j) :: 0 <= i <= j
  {
    if |s| < 2 then -1
    else if s[0] == '\n' && s[1] == '\n' then 0
    else
      var r := FirstBlank(s[1..]);
      assert forall j | BlankAt(s, j) :: BlankAt(s[1..], j - 1);
      if r < 0 then -1 else r + 1
  }

  datatype Pieces = Pieces(frames: seq<string>, rest: string)

  /** All complete raw frames of the text, cut at the leftmost blank line each time, and what is left over. */
  function Split(s: string): Pieces
    decreases |s|
  {
    var i := FirstBlank(s);
    if i < 0 then Pieces([], s)
    else
      var tail := Split(s[i + 2..]);
      Pieces([s[..i]] + tail.frames, tail.rest)
  }

  function Rejoined(frames: seq<string>, rest: string): string {
    if frames == [] then rest else frames[0] + "\n\n" + Rejoined(frames[1..], rest)
  }

  lemma RejoinedOneMore(frame: string, frames: seq<string>, rest: string)
    ensures Rejoined([frame] + frames, rest) == frame + "\n\n" + Rejoined(frames, rest)
  {
    assert ([frame] + frames)[1..] == frames;
  }

  lemma CutAtBlank(s: string, i: nat)
    requires BlankAt(s, i) && FirstBlank(s) == i
    ensures s == s[..i] + "\n\n" + s[i + 2..] && FirstBlank(s[..i]) < 0
  {
    if FirstBlank(s[..i]) >= 0 {
      assert BlankAt(s, FirstBlank(s[..i]));
    }
  }

  predicate NoBlanks(frames: seq<string>) { forall k | 0 <= k < |frames| :: FirstBlank(frames[k]) < 0 }

  /** Cutting loses nothing: the pieces with their blank lines are the text, and no piece holds a blank line. */
  lemma {:induction false} PiecesAreTheText(s: string)
    ensures Rejoined(Split(s).frames, Split(s).rest) == s && NoBlanks(Split(s).frames)
    decreases |s|
  {
    var i := FirstBlank(s);
    if i >= 0 {
      var tail := s[i + 2..];
      PiecesAreTheText(tail);
      CutAtBlank(s, i);
      RejoinedOneMore(s[..i], Split(tail).frames, Split(tail).rest);
    }
  }

  lemma {:induction false} RestHasNoBlank(s: string)
    ensures FirstBlank(Split(s).rest) < 0
    decreases |s|
  {
    var i := FirstBlank(s);
    if i >= 0 {
      RestHasNoBlank(s[i + 2..]);
    }
  }

  /** Later text leaves the first frame where it is. */
  lemma FirstFrameStays(a: string, b: string)
    requires FirstBlank(a) >= 0
    ensures var i := FirstBlank(a);
            Split(a + b) == Pieces([a[..i]] + Split(a[i + 2..] + b).frames, Split(a[i + 2..] + b).rest)
  {
    var i := FirstBlank(a);
    FirstBlankStays(a, b);
    assert (a + b)[..i] == a[..i] && (a + b)[i + 2..] == a[i + 2..] + b;
  }

  lemma FirstBlankStays(a: string, b: string)
    requires FirstBlank(a) >= 0
    ensures FirstBlank(a + b) == FirstBlank(a)
  {
    var i := FirstBlank(a);
    assert BlankAt(a + b, i);
    forall j | BlankAt(a + b, j) && j < i ensures BlankAt(a, j) {
      assert (a + b)[j] == a[j] && (a + b)[j + 1] == a[j + 1];
    }
  }

  /** Cutting `all` gives the pieces `now` and, after them, the pieces `later`. */
  predicate Continues(all: Pieces, now: Pieces, later: Pieces) {
    all == Pieces(now.frames + later.frames, later.rest)
  }

  lemma OneMorePiece(cut: string, all: Pieces, now: Pieces, later: Pieces)
    requires Continues(all, now, later)
    ensures Continues(Pieces([cut] + all.frames, all.rest), Pieces([cut] + now.frames, now.rest), later)
  {
    Associative([cut], now.frames, later.frames);
  }

  lemma NothingCut(a: string, b: string)
    requires FirstBlank(a) < 0
    ensures Split(a) == Pieces([], a) && Continues(Split(a + b), Split(a), Split(Split(a).rest + b))
  {
    assert Split(a + b).frames == [] + Split(a + b).frames;
  }

  /** Text that arrives later never changes a cut already made. */
  lemma {:induction false} SplitAppend(a: string, b: string)
    ensures Continues(Split(a + b), Split(a), Split(Split(a).rest + b))
    decreases |a|
  {
    var i := FirstBlank(a);
    if i >= 0 {
      var tail := a[i + 2..];
      SplitAppend(tail, b);
      FirstFrameStays(a, b);
      OneMorePiece(a[..i], Split(tail + b), Split(tail), Split(Split(tail).rest + b));
    } else {
      NothingCut(a, b);
    }
  }

  /** The inner reading loop: cut off frames as long as the buffer holds a blank line. */
  method CutFrames(text: string) returns (frames: seq<string>, buffer: string)
    ensures frames == NonEmpty(Split(text).frames)
    ensures buffer == Split(text).rest
  {
    frames, buffer := [], text;
    var separator := FirstBlank(buffer);
    while separator != -1
      invariant separator == FirstBlank(buffer)
      invariant frames + NonEmpty(Split(buffer).frames) == NonEmpty(Split(text).frames)
      invariant Split(buffer).rest == Split(text).rest
      decreases |buffer|
    {
      var rawFrame := buffer[..separator];
      CutOne(frames, buffer);
      buffer := buffer[separator + 2..];
      if |rawFrame| > 0 {
        frames := frames + [rawFrame];
      }
      separator := FirstBlank(buffer);
    }
  }

  lemma CutOne(frames: seq<string>, buffer: string)
    requires FirstBlank(buffer) >= 0
    ensures var rawFrame, others := buffer[..FirstBlank(buffer)], Split(buffer[FirstBlank(buffer) + 2..]);
            && Split(buffer).rest == others.rest
            && frames + NonEmpty(Split(buffer).frames)
               == (if |rawFrame| > 0 then frames + [rawFrame] else frames) + NonEmpty(others.frames)
  {
    var rawFrame, others := buffer[..FirstBlank(buffer)], Split(buffer[FirstBlank(buffer) + 2..]).frames;
    assert ([rawFrame] + others)[1..] == others;
    if |rawFrame| > 0 {
      Associative(frames, [rawFrame], NonEmpty(others));
    } else {
      assert [] + NonEmpty(others) == NonEmpty(others);
    }
  }

  /** The client's reading loop: append a chunk, cut off every complete frame, keep the rest. Whatever the
      chunks are, it reports the frames of the whole text, and no complete frame stays in the buffer. */
  method ReadStream(chunks: seq<string>) returns (frames: seq<string>, buffer: string)
    ensures frames == NonEmpty(Split(Concat(chunks)).frames)
    ensures buffer == Split(Concat(chunks)).rest && FirstBlank(buffer) < 0
  {
    frames, buffer := [], "";
    var n := 0;
    while n < |chunks|
      invariant n <= |chunks|
      invariant frames == NonEmpty(Split(Concat(chunks[..n])).frames)
      invariant buffer == Split(Concat(chunks[..n])).rest
    {
      ChunkArrives(chunks, n);
      var cut;
      cut, buffer := CutFrames(buffer + chunks[n]);
      frames := frames + cut;
      n := n + 1;
    }
    assert chunks[..n] == chunks;
    RestHasNoBlank(Concat(chunks));
  }

  lemma ChunkArrives(chunks: seq<string>, n: nat)
    requires n < |chunks|
    ensures var known, next := Split(Concat(chunks[..n])), Split(Concat(chunks[..n + 1]));
            var cut := Split(known.rest + chunks[n]);
            NonEmpty(next.frames) == NonEmpty(known.frames) + NonEmpty(cut.frames) && next.rest == cut.rest
  {
    var before := Concat(chunks[..n]);
    ConcatAppend(chunks[..n], [chunks[n]]);
    assert chunks[..n] + [chunks[n]] == chunks[..n + 1];
    assert [chunks[n]][1..] == [] && Concat([chunks[n]]) == chunks[n] + Concat([]) == chunks[n];
    SplitAppend(before, chunks[n]);
    NonEmptyAppend(Split(before).frames, Split(Split(before).rest + chunks[n]).frames);
  }

  // ---------------------------------------------------------------- parsing one frame

  datatype Parsed = Parsed(id: Option<string>, event: Option<string>, data: Option<string>, comments: seq<string>)

  const EMPTY := Parsed(None, None, None, [])

  function Field(line: string): string {
    var separator := IndexOf(line, ':');
    if separator == -1 then line else line[..separator]
  }

  function Value(line: string): string {
    var separator := IndexOf(line, ':');
    var raw := if separator == -1 then "" else line[separator + 1..];
    if raw != "" && raw[0] == ' ' then raw[1..] else raw
  }

  function ParseLine(frame: Parsed, line: string): Parsed {
    if line == "" then frame
    else if line[0] == ':' then frame.(comments := frame.comments + [Trim(line[1..])])
    else if Field(line) == "id" then frame.(id := Some(Value(line)))
    else if Field(line) == "event" then frame.(event := Some(Value(line)))
    else if Field(line) == "data" then
      frame.(data := Some(if frame.data.Some? && frame.data.value != "" then frame.data.value + "\n" + Value(line)
                          else Value(line)))
    else frame
  }

  function ParseLines(frame: Parsed, lines: seq<string>): Parsed
    decreases lines
  {
    if lines == [] then frame else ParseLines(ParseLine(frame, lines[0]), lines[1..])
  }

  function ParseFrame(raw: string): Parsed { ParseLines(EMPTY, Lines(raw)) }

  // ---------------------------------------------------------------- what a parsed frame holds

  predicate HasField(line: string, name: string) { line != "" && line[0] != ':' && Field(line) == name }

  /** The values of the lines with one field, in order. */
  function FieldValues(lines: seq<string>, name: string): seq<string> {
    if lines == [] then []
    else (if HasField(lines[0], name) then [Value(lines[0])] else []) + FieldValues(lines[1..], name)
  }

  /** The lines that start with a colon, without it and the space around the rest. */
  function CommentsOf(lines: seq<string>): seq<string> {
    if lines == [] then []
    else (if lines[0] != "" && lines[0][0] == ':' then [Trim(lines[0][1..])] else [])
         + CommentsOf(lines[1..])
  }

  function LastOf(values: seq<string>): Option<string> { if values == [] then None else Some(values[|values| - 1]) }

  /** The values joined by newlines, where empty ones at the start are lost. */
  function DataOf(values: seq<string>): Option<string> {
    if values == [] then None
    else if values[0] == "" && |values| > 1 then DataOf(values[1..])
    else Some(values[0] + Continued(values[1..]))
  }

  function Continued(values: seq<string>): string {
    if values == [] then "" else "\n" + values[0] + Continued(values[1..])
  }

  /** A parsed frame: the last id and event, the data lines joined, and the comments. */
  lemma ParsedFrameHolds(lines: seq<string>)
    ensures ParseLines(EMPTY, lines) == Parsed(LastOf(FieldValues(lines, "id")), LastOf(FieldValues(lines, "event")),
                                               DataOf(FieldValues(lines, "data")), CommentsOf(lines))
  {
    ParsedFrom(EMPTY, lines);
    assert [] + CommentsOf(lines) == CommentsOf(lines);
  }

  function Latest(before: Option<string>, values: seq<string>): Option<string> {
    if values == [] then before else LastOf(values)
  }

  function MoreData(before: Option<string>, values: seq<string>): Option<string> {
    if before.Some? && before.value != "" then Some(before.value + Continued(values))
    else if values == [] then before
    else DataOf(values)
  }

  lemma {:induction false} ParsedFrom(frame: Parsed, lines: seq<string>)
    ensures ParseLines(frame, lines) == Parsed(Latest(frame.id, FieldValues(lines, "id")),
                                               Latest(frame.event, FieldValues(lines, "event")),
                                               MoreData(frame.data, FieldValues(lines, "data")),
                                               frame.comments + CommentsOf(lines))
    decreases lines
  {
    if lines == [] {
      assert frame.comments + [] == frame.comments;
      assert frame.data.Some? ==> frame.data.value + "" == frame.data.value;
    } else {
      var line, rest := lines[0], lines[1..];
      ParsedFrom(ParseLine(frame, line), rest);
      CommentAdded(frame, line, rest);
      DataAdded(frame.data, Value(line), FieldValues(rest, "data"));
      LatestAdded(frame.id, Value(line), FieldValues(rest, "id"));
      LatestAdded(frame.event, Value(line), FieldValues(rest, "event"));
      OneKindOfLine(frame, line, lines);
    }
  }

  lemma LatestAdded(before: Option<string>, value: string, values: seq<string>)
    ensures Latest(before, [value] + values) == Latest(Some(value), values)
    ensures Latest(before, [] + values) == Latest(before, values)
  {
    assert [] + values == values;
  }

  lemma DataAdded(before: Option<string>, value: string, values: seq<string>)
    ensures MoreData(before, [value] + values) ==
              MoreData(Some(if before.Some? && before.value != "" then before.value + "\n" + value else value), values)
    ensures MoreData(before, [] + values) == MoreData(before, values)
  {
    assert [] + values == values;
    assert ([value] + values)[1..] == values;
    if before.Some? && before.value != "" {
      assert Continued([value] + values) == "\n" + value + Continued(values);
      assert before.value + ("\n" + value + Continued(values)) == before.value + "\n" + value + Continued(values);
    }
    assert value + "" == value;
  }

  lemma CommentAdded(frame: Parsed, line: string, rest: seq<string>)
    ensures ParseLine(frame, line).comments + CommentsOf(rest) == frame.comments + CommentsOf([line] + rest)
  {
    assert ([line] + rest)[1..] == rest;
    var own := if line != "" && line[0] == ':' then [Trim(line[1..])] else [];
    Associative(frame.comments, own, CommentsOf(rest));
    assert frame.comments + [] == frame.comments;
  }

  lemma OneKindOfLine(frame: Parsed, line: string, lines: seq<string>)
    requires lines != [] && lines[0] == line
    ensures var after := ParseLine(frame, line);
            && after.id == (if HasField(line, "id") then Some(Value(line)) else frame.id)
            && after.event == (if HasField(line, "event") then Some(Value(line)) else frame.event)
            && after.data == (if HasField(line, "data") then
                                Some(if frame.data.Some? && frame.data.value != ""
                                     then frame.data.value + "\n" + Value(line) else Value(line))
                              else frame.data)
    ensures lines == [line] + lines[1..]
  {
    assert "id" != "event" && "id" != "data" && "event" != "data";
  }

  /** A line is its field, a colon, at most one space and its value, or all field if it has no colon. */
  lemma LineIsFieldAndValue(line: string)
    ensures ':' !in Field(line)
    ensures ':' !in line ==> Field(line) == line && Value(line) == ""
    ensures ':' in line ==>
              || line == Field(line) + ": " + Value(line)
              || (line == Field(line) + ":" + Value(line) && (Value(line) == "" || Value(line)[0] != ' '))
  {
    var separator := IndexOf(line, ':');
    if separator >= 0 {
      var raw := line[separator + 1..];
      assert line == line[..separator] + ":" + raw;
      if raw != "" && raw[0] == ' ' {
        assert raw == " " + raw[1..];
        assert line[..separator] + ":" + (" " + raw[1..]) == line[..separator] + ": " + raw[1..];
      }
    }
  }

  /** The parser as the loop it is. */
  method ParseSseFrame(raw: string) returns (frame: Parsed)
    ensures frame == ParseFrame(raw)
  {
    frame := EMPTY;
    var lines := Lines(raw);
    var n := 0;
    while n < |lines|
      invariant n <= |lines|
      invariant ParseLines(frame, lines[n..]) == ParseFrame(raw)
    {
      var line := lines[n];
      n := n + 1;
      assert lines[n - 1..][1..] == lines[n..];
      if line == "" {
        continue;
      }
      if line[0] == ':' {
        frame := frame.(comments := frame.comments + [Trim(line[1..])]);
        continue;
      }
      var separator := IndexOf(line, ':');
      var field := if separator == -1 then line else line[..separator];
      var rawValue := if separator == -1 then "" else line[separator + 1..];
      var value := if rawValue != "" && rawValue[0] == ' ' then rawValue[1..] else rawValue;
      if field == "id" {
        frame := frame.(id := Some(value));
        continue;
      }
      if field == "event" {
        frame := frame.(event := Some(value));
        continue;
      }
      if field == "data" {
        var more := if frame.data.Some? && frame.data.value != "" then frame.data.value + "\n" + value else value;
        frame := frame.(data := Some(more));
      }
    }
  }

  // ---------------------------------------------------------------- round trip

  /** What the client is to see of a frame. */
  function Seen(f: Frame): Parsed {
    match f
    case EventFrame(id, eventType, data) => Parsed(Some(Decimal(id)), Some(eventType), Some(data), [])
    case LineFrame(line) => ParseLine(EMPTY, line)
  }

  lemma RetryHasAnotherField()
    ensures Field("retry: 2000") == "retry"
  {
    FieldLine("retry", "2000");
    assert "retry" + ": " + "2000" == "retry: 2000";
  }

  lemma ConnectedIsTrimmed()
    ensures Trim(": connected"[1..]) == "connected"
  {
    assert ": connected"[1..] == " connected" && " connected"[1..] == "connected";
    var word := "connected";
    assert !IsBlank(word[0]) && !IsBlank(word[|word| - 1]);
    assert TrimStart(" connected") == TrimStart(word) == word && TrimEnd(word) == word;
  }

  lemma OtherFieldsAreIgnored(line: string)
    requires line != "" && line[0] != ':' && Field(line) != "id" && Field(line) != "event" && Field(line) != "data"
    ensures ParseLine(EMPTY, line) == EMPTY
  {
  }

  lemma CommentsAreKept(line: string)
    requires line != "" && line[0] == ':'
    ensures ParseLine(EMPTY, line) == Parsed(None, None, None, [Trim(line[1..])])
  {
  }

  /** The two frames that open a stream carry no event; the second is a comment. */
  lemma OpeningFramesSeen()
    ensures Seen(LineFrame("retry: 2000")) == EMPTY
    ensures Seen(LineFrame(": connected")) == Parsed(None, None, None, ["connected"])
  {
    RetryHasAnotherField();
    OtherFieldsAreIgnored("retry: 2000");
    ConnectedIsTrimmed();
    CommentsAreKept(": connected");
  }

  function SeenAll(frames: seq<Frame>): seq<Parsed> {
    if frames == [] then [] else [Seen(frames[0])] + SeenAll(frames[1..])
  }

  function ParseAll(raw: seq<string>): seq<Parsed> {
    if raw == [] then [] else [ParseFrame(raw[0])] + ParseAll(raw[1..])
  }

  lemma FieldLine(name: string, value: string)
    requires name != "" && ':' !in name
    ensures Field(name + ": " + value) == name && Value(name + ": " + value) == value
  {
    var line := name + ": " + value;
    assert line[|name|] == ':' && forall j | 0 <= j < |name| :: line[j] == name[j];
    assert IndexOf(line, ':') == |name|;
    assert line[..|name|] == name && line[|name| + 1..] == " " + value;
    assert (" " + value)[1..] == value;
  }

  lemma ThreeLines(a: string, b: string, c: string)
    requires '\n' !in a && '\n' !in b && '\n' !in c
    ensures Lines(a + "\n" + (b + "\n" + c)) == [a, b, c]
  {
    LinesSplit(a, b + "\n" + c);
    LinesSplit(b, c);
    LinesSingle(c);
  }

  lemma BodyLines(f: Frame)
    requires WellFormed(f) && f.EventFrame?
    ensures Lines(Body(f)) == ["id: " + Decimal(f.id), "event: " + f.eventType, "data: " + f.data]
  {
    var a, b, c := "id: " + Decimal(f.id), "event: " + f.eventType, "data: " + f.data;
    ThreeLines(a, b, c);
  }

  lemma ParseThreeLines(a: string, b: string, c: string)
    ensures ParseLines(EMPTY, [a, b, c]) == ParseLine(ParseLine(ParseLine(EMPTY, a), b), c)
  {
    assert [a, b, c][1..] == [b, c] && [b, c][1..] == [c] && [c][1..] == [];
    var first := ParseLine(EMPTY, a);
    assert ParseLines(EMPTY, [a, b, c]) == ParseLines(first, [b, c]);
    var second := ParseLine(first, b);
    assert ParseLines(first, [b, c]) == ParseLines(second, [c]);
    assert ParseLines(second, [c]) == ParseLines(ParseLine(second, c), []);
  }

  lemma ParseSerialized(f: Frame)
    requires WellFormed(f)
    ensures ParseFrame(Body(f)) == Seen(f)
  {
    match f
    case LineFrame(line) =>
      LinesSingle(line);
      assert [line][1..] == [];
      assert ParseLines(ParseLine(EMPTY, line), []) == ParseLine(EMPTY, line);
    case EventFrame(id, eventType, data) =>
      BodyLines(f);
      ParseThreeLines("id: " + Decimal(id), "event: " + eventType, "data: " + data);
      NamedLine("id", Decimal(id), EMPTY);
      NamedLine("event", eventType, EMPTY.(id := Some(Decimal(id))));
      NamedLine("data", data, EMPTY.(id := Some(Decimal(id)), event := Some(eventType)));
  }

  lemma NamedLine(name: string, value: string, frame: Parsed)
    requires frame.data == None
    ensures name == "id" ==> ParseLine(frame, "id: " + value) == frame.(id := Some(value))
    ensures name == "event" ==> ParseLine(frame, "event: " + value) == frame.(event := Some(value))
    ensures name == "data" ==> ParseLine(frame, "data: " + value) == frame.(data := Some(value))
  {
    assert "id" + ": " == "id: " && "event" + ": " == "event: " && "data" + ": " == "data: ";
    FieldLine("id", value);
    FieldLine("event", value);
    FieldLine("data", value);
  }

  lemma {:induction false} FirstBlankAfter(a: string, b: string)
    requires '\n' !in a
    ensures FirstBlank(a + b) == if FirstBlank(b) < 0 then -1 else |a| + FirstBlank(b)
  {
    if a == "" {
      assert a + b == b;
    } else {
      FirstBlankAfter(a[1..], b);
      assert (a + b)[1..] == a[1..] + b;
      if |a + b| < 2 {
        assert b == "";
      }
    }
  }

  /** One nonempty line, its newline and a text that starts a line of its own hold no blank line between them. */
  lemma FirstBlankAfterLine(line: string, b: string)
    requires '\n' !in line && b != "" && b[0] != '\n' && FirstBlank(b) >= 0
    ensures FirstBlank(line + "\n" + b) == |line| + 1 + FirstBlank(b)
  {
    assert ("\n" + b)[1..] == b;
    assert line + "\n" + b == line + ("\n" + b);
    FirstBlankAfter(line, "\n" + b);
  }

  lemma ThreeLinesThenBlank(a: string, b: string, c: string, tail: string)
    requires '\n' !in a && '\n' !in b && '\n' !in c && b != "" && c != "" && FirstBlank(tail) == 0
    ensures FirstBlank(a + "\n" + (b + "\n" + (c + tail))) == |a + "\n" + (b + "\n" + c)|
  {
    FirstBlankAfter(c, tail);
    FirstBlankAfterLine(b, c + tail);
    FirstBlankAfterLine(a, b + "\n" + (c + tail));
  }

  lemma ThreeLinesAssociate(a: string, b: string, c: string, tail: string)
    ensures a + "\n" + (b + "\n" + c) + tail == a + "\n" + (b + "\n" + (c + tail))
  {
    Associative(a + "\n", b + "\n" + c, tail);
    Associative(b + "\n", c, tail);
  }

  lemma FrameEndsAtItsBlankLine(f: Frame, rest: string)
    requires WellFormed(f)
    ensures FirstBlank(Serialize(f) + rest) == |Body(f)|
  {
    var tail := "\n\n" + rest;
    Associative(Body(f), "\n\n", rest);
    match f
    case LineFrame(line) => FirstBlankAfter(line, tail);
    case EventFrame(id, eventType, data) =>
      var a, b, c := "id: " + Decimal(id), "event: " + eventType, "data: " + data;
      ThreeLinesThenBlank(a, b, c, tail);
      ThreeLinesAssociate(a, b, c, tail);
  }

  lemma {:induction false} SplitSerialized(frames: seq<Frame>)
    requires forall f | f in frames :: WellFormed(f)
    ensures var pieces := Split(SerializeAll(frames));
            pieces.rest == "" && NonEmpty(pieces.frames) == pieces.frames && ParseAll(pieces.frames) == SeenAll(frames)
  {
    if frames != [] {
      var f, rest := frames[0], SerializeAll(frames[1..]);
      var s := Serialize(f) + rest;
      FrameEndsAtItsBlankLine(f, rest);
      assert s[..|Body(f)|] == Body(f) && s[|Body(f)| + 2..] == rest;
      ParseSerialized(f);
      SplitSerialized(frames[1..]);
    }
  }

  /** Distinct events look distinct to the reader; in particular distinct ids do. */
  lemma SeenApart(f: Frame, g: Frame)
    requires f.EventFrame? && g.EventFrame?
    ensures Seen(f) == Seen(g) <==> f == g
    ensures Seen(f).id == Seen(g).id <==> f.id == g.id
  {
    if Seen(f).id == Seen(g).id {
      DecimalInjective(f.id, g.id);
    }
  }

  lemma {:induction false} AllSeenApart(a: seq<Frame>, b: seq<Frame>)
    requires (forall f | f in a :: f.EventFrame?) && (forall f | f in b :: f.EventFrame?)
    ensures SeenAll(a) == SeenAll(b) ==> a == b
  {
    if a != [] && b != [] && SeenAll(a) == SeenAll(b) {
      assert SeenAll(a)[0] == Seen(a[0]) && SeenAll(b)[0] == Seen(b[0]);
      assert SeenAll(a)[1..] == SeenAll(a[1..]) && SeenAll(b)[1..] == SeenAll(b[1..]);
      SeenApart(a[0], b[0]);
      AllSeenApart(a[1..], b[1..]);
    }
  }

  /** Two lists of events are printed as the same text only if they are the same. */
  lemma PrintedApart(a: seq<Frame>, b: seq<Frame>)
    requires forall f | f in a :: WellFormed(f) && f.EventFrame?
    requires forall f | f in b :: WellFormed(f) && f.EventFrame?
    ensures SerializeAll(a) == SerializeAll(b) <==> a == b
  {
    SplitSerialized(a);
    SplitSerialized(b);
    AllSeenApart(a, b);
  }

  method ParseEach(raw: seq<string>) returns (seen: seq<Parsed>)
    ensures seen == ParseAll(raw)
  {
    seen := [];
    var n := 0;
    while n < |raw|
      invariant n <= |raw|
      invariant ParseAll(raw) == seen + ParseAll(raw[n..])
    {
      var parsed := ParseSseFrame(raw[n]);
      ParseOneMore(raw, n, seen);
      seen := seen + [parsed];
      n := n + 1;
    }
  }

  lemma ParseOneMore(raw: seq<string>, n: nat, seen: seq<Parsed>)
    requires n < |raw|
    ensures seen + ParseAll(raw[n..]) == seen + [ParseFrame(raw[n])] + ParseAll(raw[n + 1..])
  {
    assert raw[n..][1..] == raw[n + 1..];
    Associative(seen, [ParseFrame(raw[n])], ParseAll(raw[n + 1..]));
  }

  /** Whatever frames the broker writes and however the text is cut into chunks on its way, the client reads
      back exactly these frames: same ids, event names and data, in order, with nothing left in its buffer. */
  method RoundTrip(frames: seq<Frame>, chunks: seq<string>) returns (seen: seq<Parsed>, buffer: string)
    requires forall f | f in frames :: WellFormed(f)
    requires Concat(chunks) == SerializeAll(frames)
    ensures seen == SeenAll(frames) && buffer == ""
  {
    SplitSerialized(frames);
    var raw;
    raw, buffer := ReadStream(chunks);
    seen := ParseEach(raw);
  }
}
