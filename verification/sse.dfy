/** The reader of the event stream (web/src/lib/api.ts): frames end with an empty line, and arrive
    cut into chunks anywhere. The LF subset of section 9.2.5 of the HTML Living Standard. */
module EventStream {
  predicate IsSeparator(text: string, k: int) {
    0 <= k < |text| - 1 && text[k] == '\n' && text[k + 1] == '\n'
  }

  ghost predicate Unbroken(text: string) {
    forall k :: !IsSeparator(text, k)
  }

  /** `indexOf("\n\n")`. */
  function Boundary(text: string): (b: int)
    ensures b == -1 || IsSeparator(text, b)
    ensures forall k :: IsSeparator(text, k) ==> 0 <= b <= k
  {
    if |text| < 2 then -1
    else if text[0] == '\n' && text[1] == '\n' then 0
    else
      var b := Boundary(text[1..]);
      assert forall k :: IsSeparator(text, k) ==> k > 0 && IsSeparator(text[1..], k - 1);
      if b == -1 then -1 else b + 1
  }

  /** Splitting a whole text: the finished frames and what is left over. */
  function Frames(text: string): seq<string> {
    var b := Boundary(text);
    if b == -1 then [] else [text[..b]] + Frames(text[b + 2..])
  }

  function Rest(text: string): string {
    var b := Boundary(text);
    if b == -1 then text else Rest(text[b + 2..])
  }

  function Concat(chunks: seq<string>): string {
    if chunks == [] then "" else Concat(chunks[..|chunks| - 1]) + chunks[|chunks| - 1]
  }

  // ---- Splitting does not depend on the chunks ----------------------------------------

  lemma BoundaryStays(text: string, more: string)
    requires Boundary(text) != -1
    ensures Boundary(text + more) == Boundary(text)
  {
    var b := Boundary(text);
    assert IsSeparator(text + more, b);
    var c := Boundary(text + more);
    assert IsSeparator(text, c);
  }

  /** More text: the frames so far stay, the rest goes on with the leftover. */
  lemma {:induction false} SplitGoesOn(text: string, more: string)
    ensures Frames(text + more) == Frames(text) + Frames(Rest(text) + more)
    ensures Rest(text + more) == Rest(Rest(text) + more)
    decreases |text|
  {
    var b := Boundary(text);
    if b != -1 {
      FirstFrameStays(text, more, b);
      SplitGoesOn(text[b + 2..], more);
    }
  }

  lemma FirstFrameStays(text: string, more: string, b: nat)
    requires b == Boundary(text) < |text| - 1
    ensures Frames(text + more) == [text[..b]] + Frames(text[b + 2..] + more)
    ensures Rest(text + more) == Rest(text[b + 2..] + more)
  {
    BoundaryStays(text, more);
    FramesUnfolded(text + more, b);
    RestUnfolded(text + more, b);
    FrontStays(text, more, b);
    TailGoesOn(text, more, b + 2);
  }

  lemma FramesUnfolded(text: string, b: nat)
    requires b == Boundary(text) < |text| - 1
    ensures Frames(text) == [text[..b]] + Frames(text[b + 2..])
  {}

  lemma RestUnfolded(text: string, b: nat)
    requires b == Boundary(text) < |text| - 1
    ensures Rest(text) == Rest(text[b + 2..])
  {}

  lemma FrontStays(text: string, more: string, k: nat)
    requires k <= |text|
    ensures (text + more)[..k] == text[..k]
  {}

  lemma TailGoesOn(text: string, more: string, k: nat)
    requires k <= |text|
    ensures (text + more)[k..] == text[k..] + more
  {}

  lemma {:induction false} NothingLeftToSplit(text: string)
    ensures Unbroken(Rest(text))
    decreases |text|
  {
    var b := Boundary(text);
    if b != -1 {
      NothingLeftToSplit(text[b + 2..]);
    }
  }

  /** What the frames and the leftover were cut from. */
  function Glued(frames: seq<string>, rest: string): string {
    if frames == [] then rest else frames[0] + "\n\n" + Glued(frames[1..], rest)
  }

  /** The separator is the first one after the frame. */
  ghost predicate AreFrames(frames: seq<string>) {
    forall i :: 0 <= i < |frames| ==> Unbroken(frames[i] + "\n")
  }

  lemma BoundaryAfter(frame: string, more: string)
    requires Unbroken(frame + "\n")
    ensures Boundary(frame + "\n\n" + more) == |frame|
  {
    var text := frame + "\n\n" + more;
    assert IsSeparator(text, |frame|);
    assert forall k :: 0 <= k < |frame| && IsSeparator(text, k) ==> IsSeparator(frame + "\n", k);
  }

  /** There is one way to split a text, however it is found. */
  lemma {:induction false} SplittingIsUnique(text: string, frames: seq<string>, rest: string)
    requires text == Glued(frames, rest) && AreFrames(frames) && Unbroken(rest)
    ensures Frames(text) == frames && Rest(text) == rest
    decreases |frames|
  {
    if frames != [] {
      var tail := Glued(frames[1..], rest);
      assert Unbroken(frames[0] + "\n");
      BoundaryAfter(frames[0], tail);
      SplittingIsUnique(tail, frames[1..], rest);
      assert text[..|frames[0]|] == frames[0] && text[|frames[0]| + 2..] == tail;
    } else {
      assert Boundary(text) == -1;
    }
  }

  /** … and splitting it loses nothing. */
  lemma {:induction false} SplittingLosesNothing(text: string)
    ensures Glued(Frames(text), Rest(text)) == text
    ensures AreFrames(Frames(text)) && Unbroken(Rest(text))
    decreases |text|
  {
    var b := Boundary(text);
    if b != -1 {
      var tail := text[b + 2..];
      SplittingLosesNothing(tail);
      assert Frames(text)[1..] == Frames(tail);
      FrontUnbroken(text, b);
      GluedBack(text, b);
    }
  }

  lemma FrontUnbroken(text: string, b: nat)
    requires IsSeparator(text, b) && forall k :: k < b ==> !IsSeparator(text, k)
    ensures Unbroken(text[..b] + "\n")
  {
    var front := text[..b] + "\n";
    assert |front| == b + 1 && forall i :: 0 <= i <= b ==> front[i] == text[i];
    assert forall k :: IsSeparator(front, k) ==> k < b && IsSeparator(text, k);
  }

  lemma GluedBack(text: string, b: nat)
    requires IsSeparator(text, b)
    ensures text[..b] + "\n\n" + text[b + 2..] == text
  {}

  /** A frame comes out exactly when two line feeds stand side by side. */
  lemma FramesIff(text: string)
    ensures Frames(text) != [] <==> exists k :: IsSeparator(text, k)
  {
    if k :| IsSeparator(text, k) {
      assert Boundary(text) != -1;
    }
  }

  /** Every line feed follows a carriage return. */
  predicate EndsLinesInCrlf(text: string) {
    forall i :: 0 <= i < |text| ==> text[i] == '\n' ==> i > 0 && text[i - 1] == '\r'
  }

  /** With lines that end in CR LF, which the standard permits as well, no frame ever comes out. */
  lemma CrlfYieldsNothing(text: string)
    requires EndsLinesInCrlf(text)
    ensures Frames(text) == [] && Rest(text) == text
  {
    forall k
      ensures !IsSeparator(text, k)
    {
      if IsSeparator(text, k) {
        assert false;
      }
    }
  }

  // ---- The data of a frame ------------------------------------------------------------

  function ToFirst(ch: char, lines: seq<string>): seq<string>
    requires lines != []
  {
    [[ch] + lines[0]] + lines[1..]
  }

  function Lines(text: string): (lines: seq<string>)
    ensures lines != []
  {
    if text == "" then [""]
    else
      var lines := Lines(text[1..]);
      if text[0] == '\n' then [""] + lines else ToFirst(text[0], lines)
  }

  /** What `trim` takes off in JavaScript. */
  predicate IsTrimmed(ch: char) {
    var n := ch as int;
    || 0x09 <= n <= 0x0D || n == 0x20 || n == 0xA0 || n == 0x1680 || 0x2000 <= n <= 0x200A
    || n == 0x2028 || n == 0x2029 || n == 0x202F || n == 0x205F || n == 0x3000 || n == 0xFEFF
  }

  function TrimStart(s: string): string {
    if s != "" && IsTrimmed(s[0]) then TrimStart(s[1..]) else s
  }

  function TrimEnd(s: string): string {
    if s != "" && IsTrimmed(s[|s| - 1]) then TrimEnd(s[..|s| - 1]) else s
  }

  predicate StartsWithData(line: string) {
    |line| >= 5 && line[..5] == "data:"
  }

  /** The data lines, trimmed. */
  function DataLines(lines: seq<string>): seq<string> {
    if lines == [] then []
    else if StartsWithData(lines[0]) then [TrimEnd(TrimStart(lines[0][5..]))] + DataLines(lines[1..])
    else DataLines(lines[1..])
  }

  function JoinLines(lines: seq<string>): string {
    if lines == [] then "" else if |lines| == 1 then lines[0] else lines[0] + "\n" + JoinLines(lines[1..])
  }

  function Data(frame: string): string {
    JoinLines(DataLines(Lines(frame)))
  }

  /** What one frame says: nothing, or what is then parsed and handed to the listener. */
  function HeardIn(frame: string): seq<string> {
    if Data(frame) != "" then [Data(frame)] else []
  }

  /** What all frames say, one after the other. */
  function All(frames: seq<string>, says: string -> seq<string>): seq<string> {
    if frames == [] then [] else says(frames[0]) + All(frames[1..], says)
  }

  function Heard(frames: seq<string>): seq<string> {
    All(frames, HeardIn)
  }

  lemma HeardSoFar(heard: seq<string>, one: seq<string>, more: seq<string>)
    ensures heard + (one + more) == (heard + one) + more
  {}

  lemma NothingLeft(buffer: string, heard: seq<string>)
    requires Boundary(buffer) == -1
    ensures Rest(buffer) == buffer && heard + Heard(Frames(buffer)) == heard && Unbroken(buffer)
  {}

  lemma {:induction false} AllJoined(a: seq<string>, b: seq<string>, says: string -> seq<string>)
    ensures All(a + b, says) == All(a, says) + All(b, says)
  {
    if a == [] {
      assert a + b == b;
    } else {
      AllJoined(a[1..], b, says);
      assert (a + b)[1..] == a[1..] + b;
      HeardSoFar(says(a[0]), All(a[1..], says), All(b, says));
    }
  }

  // ---- The reader ---------------------------------------------------------------------

  class StreamReader {
    var buffer: string
    var heard: seq<string>
    /** Everything that was read. */
    ghost var text: string

    ghost predicate Valid()
      reads this
    {
      buffer == Rest(text) && heard == Heard(Frames(text))
    }

    constructor ()
      ensures Valid() && text == ""
    {
      buffer, heard, text := "", [], "";
    }

    /** One chunk: however the text is cut, the listener has heard what the whole text says and
        the buffer holds no finished frame. */
    method Read(chunk: string)
      requires Valid()
      modifies this
      ensures Valid() && text == old(text) + chunk && Unbroken(buffer)
    {
      SplitGoesOn(text, chunk);
      AllJoined(Frames(text), Frames(buffer + chunk), HeardIn);
      text := text + chunk;
      buffer := buffer + chunk;
      ghost var all, left := Heard(Frames(text)), Rest(text);
      var boundary := Boundary(buffer);
      while boundary != -1
        invariant boundary == Boundary(buffer)
        invariant text == old(text) + chunk && Rest(buffer) == left && heard + Heard(Frames(buffer)) == all
        decreases |buffer|
      {
        TakeFrame(boundary);
        boundary := Boundary(buffer);
      }
      NothingLeft(buffer, heard);
    }

    method TakeFrame(boundary: nat)
      requires boundary == Boundary(buffer)
      modifies this`buffer, this`heard
      ensures |buffer| < |old(buffer)| && Rest(buffer) == Rest(old(buffer))
      ensures heard + Heard(Frames(buffer)) == old(heard) + Heard(Frames(old(buffer)))
    {
      FirstFrame(buffer);
      var frame := buffer[..boundary];
      HeardSoFar(heard, HeardIn(frame), Heard(Frames(buffer[boundary + 2..])));
      buffer := buffer[boundary + 2..];
      var said := HandOver(frame);
      heard := heard + said;
    }
  }

  /** The data of a frame, if there is any. */
  method HandOver(frame: string) returns (said: seq<string>)
    ensures said == HeardIn(frame)
  {
    var data := Data(frame);
    said := if data != "" then [data] else [];
  }

  lemma FirstFrame(text: string)
    requires Boundary(text) != -1
    ensures var b := Boundary(text);
            && Rest(text) == Rest(text[b + 2..])
            && Heard(Frames(text)) == HeardIn(text[..b]) + Heard(Frames(text[b + 2..]))
  {
    var b := Boundary(text);
    assert Frames(text) == [text[..b]] + Frames(text[b + 2..]);
    assert Frames(text)[1..] == Frames(text[b + 2..]);
  }

  /** The loop of `openRunStream`: what is heard depends on the text alone, not on its chunks. */
  method OpenRunStream(chunks: seq<string>) returns (heard: seq<string>, leftover: string)
    ensures heard == Heard(Frames(Concat(chunks)))
    ensures leftover == Rest(Concat(chunks)) && Unbroken(leftover)
  {
    var reader := new StreamReader();
    for i := 0 to |chunks|
      invariant reader.Valid() && reader.text == Concat(chunks[..i])
    {
      assert chunks[..i + 1][..i] == chunks[..i];
      reader.Read(chunks[i]);
    }
    assert chunks[..|chunks|] == chunks;
    NothingLeftToSplit(reader.text);
    heard, leftover := reader.heard, reader.buffer;
  }

  // ---- From the server to the listener ------------------------------------------------

  predicate OneLine(s: string) {
    forall i :: 0 <= i < |s| ==> s[i] != '\n'
  }

  /** A payload the reader cannot alter: one line without blanks at its ends, as JSON objects are. */
  predicate IsPayload(s: string) {
    s != "" && OneLine(s) && !IsTrimmed(s[0]) && !IsTrimmed(s[|s| - 1])
  }

  datatype Event = Event(id: string, kind: string, payload: string)

  /** An event on three lines that end in LF. */
  function Frame(e: Event): string {
    "id: " + e.id + "\n" + ("event: " + e.kind + "\n" + ("data: " + e.payload))
  }

  lemma LineListsJoin(ch: char, a: seq<string>, b: seq<string>)
    requires a != []
    ensures [""] + (a + b) == ([""] + a) + b && ToFirst(ch, a + b) == ToFirst(ch, a) + b
  {
    assert (a + b)[1..] == a[1..] + b;
  }

  lemma {:induction false} LinesJoined(a: string, b: string)
    ensures Lines(a + "\n" + b) == Lines(a) + Lines(b)
  {
    var text := a + "\n" + b;
    if a == "" {
      assert text[1..] == b;
    } else {
      LinesJoined(a[1..], b);
      assert text[1..] == a[1..] + "\n" + b;
      LineListsJoin(a[0], Lines(a[1..]), Lines(b));
    }
  }

  lemma {:induction false} LinesOfOne(s: string)
    requires OneLine(s)
    ensures Lines(s) == [s]
  {
    if s != "" {
      LinesOfOne(s[1..]);
      assert [s[0]] + s[1..] == s;
    }
  }

  lemma ThreeLines(a: string, b: string, c: string)
    requires OneLine(a) && OneLine(b) && OneLine(c)
    ensures Lines(a + "\n" + (b + "\n" + c)) == [a, b, c]
  {
    LinesJoined(a, b + "\n" + c);
    LinesJoined(b, c);
    LinesOfOne(a);
    LinesOfOne(b);
    LinesOfOne(c);
  }

  lemma TrimKeepsPayload(payload: string)
    requires IsPayload(payload)
    ensures TrimEnd(TrimStart(" " + payload)) == payload
  {
    assert (" " + payload)[1..] == payload;
    assert TrimStart(" " + payload) == TrimStart(payload);
  }

  lemma OtherField(line: string)
    requires line != "" && line[0] != 'd'
    ensures !StartsWithData(line)
  {
    assert "data:"[0] == 'd';
  }

  lemma FrameSaysItsPayload(e: Event)
    requires OneLine(e.id) && OneLine(e.kind) && IsPayload(e.payload)
    ensures Data(Frame(e)) == e.payload
  {
    var id, kind, data := "id: " + e.id, "event: " + e.kind, "data: " + e.payload;
    ThreeLines(id, kind, data);
    OtherField(id);
    OtherField(kind);
    assert data[..5] == "data:" && data[5..] == " " + e.payload;
    TrimKeepsPayload(e.payload);
    DataOfThree(id, kind, data);
  }

  /** Lines put together can be told apart again. */
  lemma {:induction false} LinesOfJoined(lines: seq<string>)
    requires lines != [] && forall i :: 0 <= i < |lines| ==> OneLine(lines[i])
    ensures Lines(JoinLines(lines)) == lines
  {
    LinesOfOne(lines[0]);
    if |lines| > 1 {
      LinesOfJoined(lines[1..]);
      LinesJoined(lines[0], JoinLines(lines[1..]));
      assert lines == [lines[0]] + lines[1..];
    }
  }

  function DataFields(payloads: seq<string>): seq<string> {
    seq(|payloads|, i requires 0 <= i < |payloads| => "data: " + payloads[i])
  }

  lemma {:induction false} DataOfFields(payloads: seq<string>)
    requires forall i :: 0 <= i < |payloads| ==> IsPayload(payloads[i])
    ensures DataLines(DataFields(payloads)) == payloads
  {
    if payloads != [] {
      var lines, first := DataFields(payloads), "data: " + payloads[0];
      assert lines[1..] == DataFields(payloads[1..]);
      assert first[..5] == "data:" && first[5..] == " " + payloads[0];
      TrimKeepsPayload(payloads[0]);
      DataOfFields(payloads[1..]);
      assert payloads == [payloads[0]] + payloads[1..];
    }
  }

  /** A frame of several data lines says them all, line by line (section 9.2.6 of the HTML Living
      Standard). */
  lemma ManyDataLines(payloads: seq<string>)
    requires payloads != [] && forall i :: 0 <= i < |payloads| ==> IsPayload(payloads[i])
    ensures Data(JoinLines(DataFields(payloads))) == JoinLines(payloads)
    ensures Lines(JoinLines(payloads)) == payloads
  {
    FieldsAreLines(payloads);
    LinesOfJoined(DataFields(payloads));
    DataOfFields(payloads);
    LinesOfJoined(payloads);
  }

  lemma FieldsAreLines(payloads: seq<string>)
    requires forall i :: 0 <= i < |payloads| ==> IsPayload(payloads[i])
    ensures forall i :: 0 <= i < |payloads| ==> OneLine(DataFields(payloads)[i])
  {
    forall i | 0 <= i < |payloads|
      ensures OneLine(DataFields(payloads)[i])
    {
      FieldIsALine(payloads[i]);
    }
  }

  lemma FieldIsALine(payload: string)
    requires OneLine(payload)
    ensures OneLine("data: " + payload)
  {}

  lemma DataOfThree(id: string, kind: string, data: string)
    requires !StartsWithData(id) && !StartsWithData(kind) && StartsWithData(data)
    ensures DataLines([id, kind, data]) == [TrimEnd(TrimStart(data[5..]))]
  {
    assert [data][1..] == [];
    assert [kind, data][1..] == [data];
    assert DataLines([kind, data]) == DataLines([data]);
    assert [id, kind, data][1..] == [kind, data];
  }

  lemma ThreeLinesUnbroken(a: string, b: string, c: string)
    requires OneLine(a) && OneLine(b) && OneLine(c) && a != "" && b != "" && c != ""
    ensures Unbroken(a + "\n" + (b + "\n" + c) + "\n")
  {
    var text := a + "\n" + (b + "\n" + c) + "\n";
    forall k
      ensures !IsSeparator(text, k)
    {
      if 0 <= k < |text| - 1 && text[k] == '\n' {
        assert k == |a| || k == |a| + 1 + |b|;
        assert text[k + 1] == if k == |a| then b[0] else c[0];
      }
    }
  }

  lemma FrameIsUnbroken(e: Event)
    requires OneLine(e.id) && OneLine(e.kind) && OneLine(e.payload)
    ensures Unbroken(Frame(e) + "\n")
  {
    ThreeLinesUnbroken("id: " + e.id, "event: " + e.kind, "data: " + e.payload);
  }

  function FramesOf(events: seq<Event>): seq<string> {
    if events == [] then [] else [Frame(events[0])] + FramesOf(events[1..])
  }

  function Payloads(events: seq<Event>): seq<string> {
    if events == [] then [] else [events[0].payload] + Payloads(events[1..])
  }

  ghost predicate Sendable(e: Event) {
    OneLine(e.id) && OneLine(e.kind) && IsPayload(e.payload)
  }

  lemma {:induction false} FramesSayPayloads(events: seq<Event>)
    requires forall i :: 0 <= i < |events| ==> Sendable(events[i])
    ensures AreFrames(FramesOf(events)) && Heard(FramesOf(events)) == Payloads(events)
  {
    if events != [] {
      FramesSayPayloads(events[1..]);
      var first := Frame(events[0]);
      FrameIsUnbroken(events[0]);
      FrameSaysItsPayload(events[0]);
      assert HeardIn(first) == [events[0].payload];
      assert FramesOf(events)[1..] == FramesOf(events[1..]);
      assert forall i :: 1 <= i < |FramesOf(events)| ==> FramesOf(events)[i] == FramesOf(events[1..])[i - 1];
    }
  }

  /** Events sent one after the other, and the beginning of another: for any way of cutting the text
      into chunks the payloads are heard in order, each once, and the beginning waits. */
  lemma EventsArrive(events: seq<Event>, begun: string, chunks: seq<string>)
    requires forall i :: 0 <= i < |events| ==> Sendable(events[i])
    requires Unbroken(begun) && Concat(chunks) == Glued(FramesOf(events), begun)
    ensures Heard(Frames(Concat(chunks))) == Payloads(events) && Rest(Concat(chunks)) == begun
  {
    FramesSayPayloads(events);
    SplittingIsUnique(Concat(chunks), FramesOf(events), begun);
  }
}
