/** Server-sent event framing and its two chunked decoders (a subset of section 9.2 of the WHATWG
    HTML Living Standard). */
module FrameDecoder {
  import opened Prelude
  import opened Sequences
  import opened Text

  // ---- splitting a stream of text at blank lines ----

  predicate BreakAt(s: string, i: nat) {
    i + 1 < |s| && s[i] == '\n' && s[i + 1] == '\n'
  }

  /** `indexOf("\n\n", from)`, the length of the text when there is none. */
  function BreakFrom(s: string, from: nat): (i: nat)
    requires from <= |s|
    ensures from <= i <= |s|
    ensures i < |s| ==> BreakAt(s, i)
    ensures forall j :: from <= j < i ==> !BreakAt(s, j)
    decreases |s| - from
  {
    if from == |s| then |s| else if BreakAt(s, from) then from else BreakFrom(s, from + 1)
  }

  /** The complete frames of a text and what is left after the last of them. */
  datatype Parts = Parts(frames: seq<string>, rest: string)

  function Preceded(frame: string, parts: Parts): Parts {
    Parts([frame] + parts.frames, parts.rest)
  }

  /** The frames of two texts read one after the other, and what the second left. */
  function Then(first: Parts, second: Parts): Parts {
    Parts(first.frames + second.frames, second.rest)
  }

  function Split(s: string): Parts
    decreases |s|
  {
    var i := BreakFrom(s, 0);
    if i == |s| then Parts([], s) else
    Preceded(s[..i], Split(s[i + 2..]))
  }

  /** `split("\n\n")` */
  function Pieces(s: string): seq<string>
    decreases |s|
  {
    var i := BreakFrom(s, 0);
    if i == |s| then [s] else [s[..i]] + Pieces(s[i + 2..])
  }

  lemma {:induction false} PiecesAreFramesAndRest(s: string)
    ensures Pieces(s) == Split(s).frames + [Split(s).rest]
    decreases |s|
  {
    var i := BreakFrom(s, 0);
    if i != |s| {
      PiecesAreFramesAndRest(s[i + 2..]);
    }
  }

  lemma SplitAtBreak(s: string, i: nat)
    requires i < |s| && BreakFrom(s, 0) == i
    ensures Split(s) == Preceded(s[..i], Split(s[i + 2..]))
  {}

  lemma SplitWithoutBreak(s: string)
    requires BreakFrom(s, 0) == |s|
    ensures Split(s) == Parts([], s)
  {}

  lemma ThenLaws(frame: string, first: Parts, second: Parts)
    ensures Then(Parts([], frame), second) == second
    ensures Then(Preceded(frame, first), second) == Preceded(frame, Then(first, second))
    ensures Preceded(frame, first).rest == first.rest
  {}

  lemma ThenSnoc(frames: seq<string>, frame: string, parts: Parts)
    ensures Then(Parts(frames, ""), Preceded(frame, parts)) == Then(Parts(frames + [frame], ""), parts)
  {
    assert frames + ([frame] + parts.frames) == (frames + [frame]) + parts.frames;
  }

  lemma ThenRest(frames: seq<string>, rest: string)
    ensures Then(Parts(frames, ""), Parts([], rest)) == Parts(frames, rest)
  {}

  /** The first decoder: cuts frames off the front of its buffer. */
  class ClientDecoder {
    var buffer: string

    constructor ()
      ensures buffer == ""
    {
      buffer := "";
    }

    method Push(chunk: string) returns (frames: seq<string>)
      modifies this
      ensures Parts(frames, buffer) == Split(old(buffer) + chunk)
    {
      hide Split, Then, Preceded, BreakFrom;
      ghost var whole := buffer + chunk;
      buffer := buffer + chunk;
      frames := [];
      var idx := BreakFrom(buffer, 0);
      ThenLaws("", Parts([], ""), Split(whole));
      while idx != |buffer|
        invariant idx == BreakFrom(buffer, 0)
        invariant Split(whole) == Then(Parts(frames, ""), Split(buffer))
        decreases |buffer|
      {
        var frame := buffer[..idx];
        SplitAtBreak(buffer, idx);
        ThenSnoc(frames, frame, Split(buffer[idx + 2..]));
        buffer := buffer[idx + 2..];
        frames := frames + [frame];
        idx := BreakFrom(buffer, 0);
      }
      SplitWithoutBreak(buffer);
      ThenRest(frames, buffer);
    }
  }

  /** The second decoder: splits the whole buffer and keeps the last piece. */
  class GatewayDecoder {
    var buffer: string

    constructor ()
      ensures buffer == ""
    {
      buffer := "";
    }

    method Push(chunk: string) returns (frames: seq<string>)
      modifies this
      ensures Parts(frames, buffer) == Split(old(buffer) + chunk)
    {
      buffer := buffer + chunk;
      PiecesAreFramesAndRest(buffer);
      var pieces := Pieces(buffer);
      frames := pieces[..|pieces| - 1];
      buffer := pieces[|pieces| - 1];
    }
  }

  // ---- chunking does not matter ----

  /** Both decoders fed chunk by chunk. */
  function Fed(buffer: string, chunks: seq<string>): Parts {
    if chunks == [] then Parts([], buffer) else
    var before := Fed(buffer, chunks[..|chunks| - 1]);
    Then(before, Split(before.rest + chunks[|chunks| - 1]))
  }

  function Joined(chunks: seq<string>): string {
    if chunks == [] then "" else Joined(chunks[..|chunks| - 1]) + chunks[|chunks| - 1]
  }

  lemma BreakOfPrefix(s: string, t: string)
    requires BreakFrom(s, 0) < |s|
    ensures BreakFrom(s + t, 0) == BreakFrom(s, 0)
  {
    var i, j := BreakFrom(s, 0), BreakFrom(s + t, 0);
    assert BreakAt(s + t, i);
    assert forall k :: 0 <= k < i ==> (BreakAt(s + t, k) <==> BreakAt(s, k));
  }

  lemma SplitAppendedBreak(s: string, t: string, i: nat)
    requires i < |s| && BreakFrom(s, 0) == i
    ensures Split(s + t) == Preceded(s[..i], Split(s[i + 2..] + t))
  {
    BreakOfPrefix(s, t);
    SplitAtBreak(s + t, i);
    hide Split, BreakFrom;
    assert (s + t)[..i] == s[..i] && (s + t)[i + 2..] == s[i + 2..] + t;
  }

  /** Splitting what is left of one text together with the next gives the frames of both. */
  lemma {:induction false} SplitAppend(s: string, t: string)
    ensures Split(s + t) == Then(Split(s), Split(Split(s).rest + t))
    decreases |s|
  {
    var i := BreakFrom(s, 0);
    hide *;
    if i == |s| {
      SplitWithoutBreak(s);
      ThenLaws(s, Parts([], s), Split(s + t));
    } else {
      SplitAtBreak(s, i);
      SplitAppendedBreak(s, t, i);
      SplitAppend(s[i + 2..], t);
      var first := Split(s[i + 2..]);
      ThenLaws(s[..i], first, Split(first.rest + t));
    }
  }

  lemma {:induction false} NothingLeftToSplit(s: string)
    ensures Split(Split(s).rest) == Parts([], Split(s).rest)
    decreases |s|
  {
    var i := BreakFrom(s, 0);
    if i < |s| {
      NothingLeftToSplit(s[i + 2..]);
    }
  }

  /** Any chunking of a text yields the frames of the text decoded at once. */
  lemma {:induction false} ChunkingDoesNotMatter(chunks: seq<string>)
    ensures Fed("", chunks) == Split(Joined(chunks))
  {
    hide Split;
    if chunks == [] {
      SplitEmpty();
    } else {
      var front, last := chunks[..|chunks| - 1], chunks[|chunks| - 1];
      ChunkingDoesNotMatter(front);
      SplitAppend(Joined(front), last);
    }
  }

  lemma SplitEmpty()
    ensures Split("") == Parts([], "")
  {}

  // ---- one frame ----

  function LineEnd(s: string): (i: nat)
    ensures i <= |s| && (forall j :: 0 <= j < i ==> s[j] != '\n') && (i < |s| ==> s[i] == '\n')
  {
    if s == "" || s[0] == '\n' then 0 else
    assert forall j :: 0 < j < |s| ==> s[j] == s[1..][j - 1];
    1 + LineEnd(s[1..])
  }

  /** `split("\n")` */
  function Lines(s: string): seq<string>
    decreases |s|
  {
    var i := LineEnd(s);
    if i == |s| then [s] else [s[..i]] + Lines(s[i + 1..])
  }

  /** `find((line) => line.startsWith(prefix))` */
  function FindPrefixed(lines: seq<string>, prefix: string): (line: Option<string>)
    ensures line.Some? ==> prefix <= line.value
  {
    if lines == [] then None
    else if prefix <= lines[0] then Some(lines[0])
    else FindPrefixed(lines[1..], prefix)
  }

  /** The lines, each followed by a line feed but for the last. */
  function Unlines(lines: seq<string>): string {
    if lines == [] then "" else if |lines| == 1 then lines[0] else lines[0] + "\n" + Unlines(lines[1..])
  }

  lemma LinesUnfold(s: string)
    ensures var i := LineEnd(s);
      if i == |s| then Lines(s) == [s] else Lines(s) == [s[..i]] + Lines(s[i + 1..])
  {
    hide LineEnd;
  }

  lemma SplitAtLineEnd(s: string, i: nat)
    requires i < |s| && s[i] == '\n'
    ensures s == s[..i] + "\n" + s[i + 1..]
  {
    assert s[i..i + 1] == "\n";
  }

  lemma UnlinesCons(line: string, lines: seq<string>)
    requires lines != []
    ensures Unlines([line] + lines) == line + "\n" + Unlines(lines)
  {
    assert ([line] + lines)[1..] == lines;
  }

  /** Splitting into lines and joining them again gives the text back, and no line holds a line feed. */
  lemma {:induction false} LinesMeaning(s: string)
    ensures Lines(s) != [] && Unlines(Lines(s)) == s
    ensures forall i :: 0 <= i < |Lines(s)| ==> OneLine(Lines(s)[i])
    decreases |s|
  {
    hide LineEnd, Lines;
    var i := LineEnd(s);
    LinesUnfold(s);
    assert OneLine(s[..i]);
    hide OneLine;
    if i == |s| {
      assert s[..i] == s;
    } else {
      SplitAtLineEnd(s, i);
      LinesMeaning(s[i + 1..]);
      UnlinesCons(s[..i], Lines(s[i + 1..]));
    }
  }

  /** The payload the client parses; an absent or blank one is skipped. */
  function ClientPayload(frame: string): Option<string> {
    match FindPrefixed(Lines(frame), "data:")
    case None => None
    case Some(line) => var text := Trim(line[5..]); if text == "" then None else Some(text)
  }

  /** The payload the gateway parses. */
  function GatewayPayload(frame: string): Option<string> {
    match FindPrefixed(Lines(frame), "data: ")
    case None => None
    case Some(line) => Some(line[6..])
  }

  /** The first line with the prefix. */
  ghost predicate FirstWith(lines: seq<string>, prefix: string, i: nat) {
    i < |lines| && prefix <= lines[i] && forall j :: 0 <= j < i ==> !(prefix <= lines[j])
  }

  lemma {:induction false} FindsFirst(lines: seq<string>, prefix: string, i: nat)
    ensures FirstWith(lines, prefix, i) ==> FindPrefixed(lines, prefix) == Some(lines[i])
    ensures (forall j :: 0 <= j < |lines| ==> !(prefix <= lines[j])) ==> FindPrefixed(lines, prefix) == None
  {
    if lines != [] {
      assert forall j :: 0 < j < |lines| ==> lines[j] == lines[1..][j - 1];
      FindsFirst(lines[1..], prefix, if i > 0 then i - 1 else 0);
    }
  }

  /** The payload is what follows the prefix in the first data line; the client trims it and skips a blank one. */
  lemma PayloadMeaning(frame: string, i: nat)
    ensures FirstWith(Lines(frame), "data:", i) ==>
      ClientPayload(frame) == if Trim(Lines(frame)[i][5..]) == "" then None else Some(Trim(Lines(frame)[i][5..]))
    ensures FirstWith(Lines(frame), "data: ", i) ==> GatewayPayload(frame) == Some(Lines(frame)[i][6..])
    ensures (forall j :: 0 <= j < |Lines(frame)| ==> !("data:" <= Lines(frame)[j])) ==> ClientPayload(frame).None?
    ensures (forall j :: 0 <= j < |Lines(frame)| ==> !("data: " <= Lines(frame)[j])) ==> GatewayPayload(frame).None?
  {
    FindsFirst(Lines(frame), "data:", i);
    FindsFirst(Lines(frame), "data: ", i);
    hide Lines, Trim, FindPrefixed;
  }

  /** The payloads found in a list of frames, in order. */
  function Payloads(frames: seq<string>, payload: string -> Option<string>): seq<string> {
    if frames == [] then [] else
    var before := Payloads(frames[..|frames| - 1], payload);
    match payload(frames[|frames| - 1])
    case None => before
    case Some(text) => before + [text]
  }

  // ---- decoding undoes the framing ----

  datatype Message = Message(id: string, json: string)

  predicate OneLine(s: string) { forall i :: 0 <= i < |s| ==> s[i] != '\n' }

  /** A serialised object: one line that neither begins nor ends with white space. */
  predicate IsJson(s: string) {
    OneLine(s) && s != "" && !IsSpace(s[0]) && !IsSpace(s[|s| - 1])
  }

  predicate Sendable(m: Message) { OneLine(m.id) && IsJson(m.json) }

  function Frame(m: Message): string { "id: " + m.id + "\ndata: " + m.json }

  /** What the server writes: the comment frame, then one frame per message. */
  function Encoded(messages: seq<Message>): string {
    if messages == [] then ": connected\n\n"
    else Encoded(messages[..|messages| - 1]) + Frame(messages[|messages| - 1]) + "\n\n"
  }

  function Jsons(messages: seq<Message>): seq<string> {
    Map((m: Message) => m.json, messages)
  }

  lemma TrimOfTrimmed(s: string)
    requires IsJson(s)
    ensures Trim(" " + s) == s
  {
    assert (" " + s)[0] == ' ' && IsSpace(' ');
    assert (" " + s)[1..] == s;
    assert TrimStart(s) == s && TrimEnd(s) == s;
    assert TrimStart(" " + s) == TrimStart((" " + s)[1..]);
  }

  lemma LastLine(line: string)
    requires OneLine(line)
    ensures Lines(line) == [line]
  {}

  lemma FirstLine(line: string, rest: string)
    requires OneLine(line)
    ensures Lines(line + "\n" + rest) == [line] + Lines(rest)
  {
    var s := line + "\n" + rest;
    assert s[|line|] == '\n';
    assert forall j :: 0 <= j < |line| ==> s[j] == line[j];
    assert s[..|line|] == line && s[|line| + 1..] == rest;
  }

  lemma FrameText(m: Message)
    requires Sendable(m)
    ensures Frame(m) == ("id: " + m.id) + "\n" + ("data: " + m.json)
    ensures OneLine("id: " + m.id) && OneLine("data: " + m.json)
  {
    var first, second := "id: " + m.id, "data: " + m.json;
    assert forall i :: 4 <= i < |first| ==> first[i] == m.id[i - 4];
    assert forall i :: 6 <= i < |second| ==> second[i] == m.json[i - 6];
  }

  lemma FrameLines(m: Message)
    requires Sendable(m)
    ensures Lines(Frame(m)) == ["id: " + m.id, "data: " + m.json]
  {
    var first, second := "id: " + m.id, "data: " + m.json;
    hide Lines, LineEnd;
    FrameText(m);
    FirstLine(first, second);
    LastLine(second);
    assert [first] + [second] == [first, second];
  }

  lemma FindOnly(line: string, prefix: string)
    ensures FindPrefixed([line], prefix) == if prefix <= line then Some(line) else None
  {}

  lemma FindSecond(first: string, second: string, prefix: string)
    requires !(prefix <= first) && prefix <= second
    ensures FindPrefixed([first, second], prefix) == Some(second)
  {
    assert [first, second][1..] == [second];
    FindOnly(second, prefix);
  }

  lemma DifferentStart(line: string, prefix: string)
    requires line != "" && prefix != "" && line[0] != prefix[0]
    ensures !(prefix <= line)
  {}

  lemma FramePayload(m: Message)
    requires Sendable(m)
    ensures ClientPayload(Frame(m)) == Some(m.json) && GatewayPayload(Frame(m)) == Some(m.json)
  {
    FrameLines(m);
    TrimOfTrimmed(m.json);
    hide Lines, Trim, FindPrefixed, Frame;
    var first, second := "id: " + m.id, "data: " + m.json;
    assert first[0] == 'i';
    DifferentStart(first, "data:");
    DifferentStart(first, "data: ");
    assert second[..5] == "data:" && second[..6] == "data: ";
    assert second[5..] == " " + m.json && second[6..] == m.json;
    FindSecond(first, second, "data:");
    FindSecond(first, second, "data: ");
  }

  lemma CommentHasNoPayload()
    ensures ClientPayload(": connected") == None && GatewayPayload(": connected") == None
  {
    var s := ": connected";
    assert s[0] == ':';
    LastLine(s);
    DifferentStart(s, "data:");
    DifferentStart(s, "data: ");
    FindOnly(s, "data:");
    FindOnly(s, "data: ");
    hide Lines, FindPrefixed;
  }

  /** A text without a blank line that does not end in a line break, closed by a blank line. */
  lemma ClosedFrame(frame: string)
    requires frame != "" && frame[|frame| - 1] != '\n'
    requires forall i :: 0 <= i < |frame| ==> !BreakAt(frame, i)
    ensures Split(frame + "\n\n") == Parts([frame], "")
  {
    var s := frame + "\n\n";
    assert forall i :: 0 <= i < |frame| - 1 ==> (BreakAt(s, i) <==> BreakAt(frame, i));
    assert s[|frame| - 1] == frame[|frame| - 1];
    assert BreakAt(s, |frame|);
    assert BreakFrom(s, 0) == |frame|;
    assert s[..|frame|] == frame && s[|frame| + 2..] == "";
    SplitEmpty();
    SplitAtBreak(s, |frame|);
    hide Split;
  }

  lemma FrameIsClosed(m: Message)
    requires Sendable(m)
    ensures Split(Frame(m) + "\n\n") == Parts([Frame(m)], "")
  {
    var first, second := "id: " + m.id, "data: " + m.json;
    var frame := Frame(m);
    assert frame == first + "\n" + second;
    assert frame[|frame| - 1] == m.json[|m.json| - 1];
    assert IsSpace('\n');
    forall i | 0 <= i < |frame| ensures !BreakAt(frame, i) {
      if i < |first| {
        assert frame[i] == first[i];
      } else if i == |first| {
        assert frame[i + 1] == second[0] == 'd';
      } else {
        assert frame[i] == second[i - |first| - 1];
      }
    }
    ClosedFrame(frame);
  }

  function FramesOf(messages: seq<Message>): seq<string> {
    [": connected"] + Map(Frame, messages)
  }

  lemma EncodedUnfold(messages: seq<Message>)
    ensures messages == [] ==> Encoded(messages) == ": connected\n\n" && FramesOf(messages) == [": connected"]
    ensures messages != [] ==>
      var front, last := messages[..|messages| - 1], messages[|messages| - 1];
      && Encoded(messages) == Encoded(front) + (Frame(last) + "\n\n")
      && FramesOf(messages) == FramesOf(front) + [Frame(last)]
  {
    hide Frame;
  }

  lemma CommentIsClosed()
    ensures Split(": connected\n\n") == Parts([": connected"], "")
  {
    var s := ": connected";
    assert s[|s| - 1] == 'd';
    assert s + "\n\n" == ": connected\n\n";
    ClosedFrame(s);
    hide Split;
  }

  lemma {:induction false} EncodedFrames(messages: seq<Message>)
    requires forall i :: 0 <= i < |messages| ==> Sendable(messages[i])
    ensures Split(Encoded(messages)) == Parts(FramesOf(messages), "")
  {
    hide Split, Encoded, Frame, FramesOf;
    EncodedUnfold(messages);
    if messages == [] {
      CommentIsClosed();
    } else {
      var front, last := messages[..|messages| - 1], messages[|messages| - 1];
      EncodedFrames(front);
      FrameIsClosed(last);
      SplitAppend(Encoded(front), Frame(last) + "\n\n");
      assert "" + (Frame(last) + "\n\n") == Frame(last) + "\n\n";
    }
  }

  lemma PayloadsSnoc(frames: seq<string>, frame: string, payload: string -> Option<string>)
    ensures Payloads([], payload) == []
    ensures Payloads(frames + [frame], payload) == Payloads(frames, payload)
         + (match payload(frame) case None => [] case Some(text) => [text])
  {
    assert (frames + [frame])[..|frames + [frame]| - 1] == frames;
  }

  lemma JsonsUnfold(messages: seq<Message>)
    ensures messages == [] ==> Jsons(messages) == []
    ensures messages != [] ==>
      Jsons(messages) == Jsons(messages[..|messages| - 1]) + [messages[|messages| - 1].json]
  {}

  lemma {:induction false} FramesPayloads(messages: seq<Message>)
    requires forall i :: 0 <= i < |messages| ==> Sendable(messages[i])
    ensures Payloads(FramesOf(messages), ClientPayload) == Jsons(messages)
    ensures Payloads(FramesOf(messages), GatewayPayload) == Jsons(messages)
  {
    hide *;
    EncodedUnfold(messages);
    JsonsUnfold(messages);
    if messages == [] {
      CommentHasNoPayload();
      PayloadsSnoc([], ": connected", ClientPayload);
      PayloadsSnoc([], ": connected", GatewayPayload);
      assert [] + [": connected"] == [": connected"];
    } else {
      var front, last := messages[..|messages| - 1], messages[|messages| - 1];
      FramesPayloads(front);
      FramePayload(last);
      PayloadsSnoc(FramesOf(front), Frame(last), ClientPayload);
      PayloadsSnoc(FramesOf(front), Frame(last), GatewayPayload);
    }
  }

  /** However the server's text is cut into chunks, both decoders return the payloads that were
      sent, in order, without the comment frame and with nothing left over. */
  lemma DecodingUndoesFraming(messages: seq<Message>, chunks: seq<string>)
    requires forall i :: 0 <= i < |messages| ==> Sendable(messages[i])
    requires Joined(chunks) == Encoded(messages)
    ensures var decoded := Fed("", chunks);
      && decoded.rest == ""
      && Payloads(decoded.frames, ClientPayload) == Jsons(messages)
      && Payloads(decoded.frames, GatewayPayload) == Jsons(messages)
  {
    hide Fed, Joined, Encoded, Split, Payloads, ClientPayload, GatewayPayload, FramesOf;
    ChunkingDoesNotMatter(chunks);
    EncodedFrames(messages);
    FramesPayloads(messages);
  }
}
