/** What a run of the engine leaves behind: conversations, turns, records and rows, and what
    holds of them in every run (core/orchestration/engine.py). */
module Turns {
  import opened Common

  // ---- What passes between the engine and the outside ---------------------------------

  datatype ToolCall = ToolCall(id: string, name: string, arguments: string)

  datatype ToolResult = ToolResult(callId: string, name: string, content: string, isError: bool)

  datatype Role = User | Assistant

  /** One conversation turn in the vendor-neutral form (core/llm/providers/base.py). */
  datatype Message = Message(role: Role, content: string, toolCalls: seq<ToolCall>, toolResults: seq<ToolResult>)

  /** A model reply with its cost; `platform` when the platform's own key paid for it. */
  datatype Answer = Answer(text: string, calls: seq<ToolCall>, cost: nat, platform: bool)

  datatype Config = Config(maxToolIterations: nat, maxToolCallsPerTurn: nat, maxSteps: int, maxCost: int)

  // ---- What a run records -------------------------------------------------------------

  /** One answered model call: the turn it belongs to, the conversation sent, the tools offered. */
  datatype Call = Call(step: nat, conversation: seq<Message>, offered: set<string>, answer: Answer)

  datatype StepRecord = StepRecord(index: nat, output: string, cost: nat, billable: nat, modelCalls: nat, toolCalls: nat)

  /** A row of the tool audit, unique by step and call index. */
  datatype ToolRow = ToolRow(step: nat, callIndex: nat, tool: string, arguments: string, content: string, isError: bool)

  function Cost(calls: seq<Call>): nat {
    if calls == [] then 0 else Cost(calls[..|calls| - 1]) + calls[|calls| - 1].answer.cost
  }

  function Billable(calls: seq<Call>, markup: nat -> nat): nat {
    if calls == [] then 0
    else
      var last := calls[|calls| - 1].answer;
      Billable(calls[..|calls| - 1], markup) + if last.platform then markup(last.cost) else 0
  }

  /** The tool calls of an answer that are carried out. */
  function Requested(a: Answer, cap: nat): seq<ToolCall> {
    a.calls[..Min(|a.calls|, cap)]
  }

  function ToolCount(calls: seq<Call>, cap: nat): nat {
    if calls == [] then 0
    else ToolCount(calls[..|calls| - 1], cap) + |Requested(calls[|calls| - 1].answer, cap)|
  }

  /** The tools that surely ran in a turn that was cut off: those of every reply but the last. */
  function FirmTools(calls: seq<Call>, cap: nat): nat {
    if calls == [] then 0 else ToolCount(calls[..|calls| - 1], cap)
  }

  function Flatten(segments: seq<seq<Call>>): seq<Call> {
    if segments == [] then [] else Flatten(segments[..|segments| - 1]) + segments[|segments| - 1]
  }

  // ---- The shape of a conversation ----------------------------------------------------

  /** The results answer the calls one to one, in order, by id and by name. */
  ghost predicate Matches(calls: seq<ToolCall>, results: seq<ToolResult>) {
    |calls| == |results| &&
    forall i :: 0 <= i < |calls| ==> results[i].callId == calls[i].id && results[i].name == calls[i].name
  }

  predicate IsText(m: Message) {
    m.role == User && m.toolCalls == [] && m.toolResults == []
  }

  /** An assistant turn with calls and the user turn with their results. */
  ghost predicate IsExchange(request: Message, response: Message) {
    && request.role == Assistant && request.toolResults == []
    && response.role == User && response.content == "" && response.toolCalls == []
    && Matches(request.toolCalls, response.toolResults)
  }

  /** One user turn, then exchanges. */
  ghost predicate WellPaired(conversation: seq<Message>) {
    var n := |conversation|;
    if n <= 1 then n == 1 && IsText(conversation[0])
    else n >= 3 && IsExchange(conversation[n - 2], conversation[n - 1]) && WellPaired(conversation[..n - 2])
  }

  lemma ExchangeAppended(conversation: seq<Message>, request: Message, response: Message)
    requires WellPaired(conversation) && IsExchange(request, response)
    ensures WellPaired(conversation + [request, response])
  {
    var longer := conversation + [request, response];
    assert longer[..|longer| - 2] == conversation;
  }

  // ---- The shape of a turn ------------------------------------------------------------

  /** Calls of one turn so far: each but the first follows a reply that asked for tools and
      carries that reply and the results; the last permitted call is offered no tools. */
  ghost predicate TurnShape(c: Config, calls: seq<Call>, step: nat) {
    if calls == [] then true
    else
      var front, last := calls[..|calls| - 1], calls[|calls| - 1];
      && TurnShape(c, front, step)
      && |front| <= c.maxToolIterations
      && last.step == step
      && WellPaired(last.conversation) && |last.conversation| == 2 * |front| + 1
      && (|front| == c.maxToolIterations ==> last.offered == {})
      && (front != [] ==> FollowsUp(c, front[|front| - 1], last.conversation))
  }

  ghost predicate FollowsUp(c: Config, before: Call, conversation: seq<Message>) {
    var n := |before.conversation|;
    && before.answer.calls != []
    && |conversation| == n + 2 && n > 0
    && conversation[1..n] == before.conversation[1..]
    && conversation[n] == Message(Assistant, before.answer.text, Requested(before.answer, c.maxToolCallsPerTurn), [])
  }

  /** No reply came without tool calls. */
  predicate AlwaysTools(calls: seq<Call>) {
    forall k :: 0 <= k < |calls| ==> calls[k].answer.calls != []
  }

  /** The visible texts of a turn, joined by blank lines. */
  function Output(calls: seq<Call>): string {
    if calls == [] then ""
    else
      var front, text := Output(calls[..|calls| - 1]), calls[|calls| - 1].answer.text;
      if IsBlank(text) then front else if front == "" then text else front + "\n\n" + text
  }

  /** One answered call added to the totals of its turn. */
  function AddUp(c: Config, markup: nat -> nat, t: StepRecord, a: Answer): StepRecord {
    StepRecord(
      t.index,
      if IsBlank(a.text) then t.output else if t.output == "" then a.text else t.output + "\n\n" + a.text,
      t.cost + a.cost,
      t.billable + (if a.platform then markup(a.cost) else 0),
      t.modelCalls + 1,
      t.toolCalls + |Requested(a, c.maxToolCallsPerTurn)|)
  }

  /** The record a turn with these calls adds up to. */
  function RecordOf(c: Config, markup: nat -> nat, index: nat, calls: seq<Call>): (r: StepRecord)
    ensures r.index == index && r.modelCalls == |calls|
  {
    if calls == [] then StepRecord(index, "", 0, 0, 0, 0)
    else AddUp(c, markup, RecordOf(c, markup, index, calls[..|calls| - 1]), calls[|calls| - 1].answer)
  }

  /** A step record says what its calls cost and did, all told. */
  lemma {:induction false} RecordSums(c: Config, markup: nat -> nat, index: nat, calls: seq<Call>)
    ensures var r := RecordOf(c, markup, index, calls);
            && r.index == index && r.modelCalls == |calls|
            && r.cost == Cost(calls) && r.billable == Billable(calls, markup)
            && r.toolCalls == ToolCount(calls, c.maxToolCallsPerTurn) && r.output == Output(calls)
  {
    if calls != [] {
      RecordSums(c, markup, index, calls[..|calls| - 1]);
    }
  }

  /** What one call adds to the sums. */
  lemma SumsOfOne(call: Call, markup: nat -> nat, cap: nat)
    ensures Cost([call]) == call.answer.cost
    ensures Billable([call], markup) == if call.answer.platform then markup(call.answer.cost) else 0
    ensures ToolCount([call], cap) == if |call.answer.calls| < cap then |call.answer.calls| else cap
    ensures Output([call]) == if IsBlank(call.answer.text) then "" else call.answer.text
  {
    assert [call][..0] == [];
  }

  /** The texts of two parts of a turn, with a blank line between them unless one says nothing. */
  lemma {:induction false} OutputJoins(a: seq<Call>, b: seq<Call>)
    ensures Output(a + b) == if Output(b) == "" then Output(a) else if Output(a) == "" then Output(b)
                             else Output(a) + "\n\n" + Output(b)
  {
    if b == [] {
      assert a + b == a;
    } else {
      var front, text := b[..|b| - 1], b[|b| - 1].answer.text;
      OutputJoins(a, front);
      assert (a + b)[..|a + b| - 1] == a + front;
      if !IsBlank(text) && Output(a) != "" && Output(front) != "" {
        assert Output(a) + "\n\n" + Output(front) + "\n\n" + text == Output(a) + "\n\n" + (Output(front) + "\n\n" + text);
      }
    }
  }

  /** The turn is over: an answer without tool calls, or every permitted call made. */
  predicate Ended(c: Config, calls: seq<Call>) {
    calls != [] && (calls[|calls| - 1].answer.calls == [] || |calls| > c.maxToolIterations)
  }

  /** A finished turn and the record made of it. */
  ghost predicate Recorded(c: Config, r: StepRecord, calls: seq<Call>, markup: nat -> nat) {
    r == RecordOf(c, markup, r.index, calls) && TurnShape(c, calls, r.index) && Ended(c, calls)
  }

  /** A run: every answered call in order, the finished turns they belong to with their records,
      the calls of a turn that was cut off, and a number that no turn has had yet. */
  datatype History = History(
    trace: seq<Call>,
    segments: seq<seq<Call>>,
    open: seq<Call>,
    records: seq<StepRecord>,
    next: nat)

  /** Every call was made below both ceilings. */
  ghost predicate Guarded(c: Config, trace: seq<Call>) {
    if trace == [] then true
    else
      var before := trace[..|trace| - 1];
      Guarded(c, before) && |before| < c.maxSteps && Cost(before) < c.maxCost
  }

  /** The books of the budget say what the calls of `trace` cost, each made below both ceilings. */
  ghost predicate Booked(c: Config, trace: seq<Call>, stepsUsed: nat, spent: nat) {
    stepsUsed == |trace| && spent == Cost(trace) && Guarded(c, trace)
  }

  /** No row repeats the step and call index of an earlier one. */
  ghost predicate RowsDistinct(rows: seq<ToolRow>) {
    if rows == [] then true
    else
      var before, last := rows[..|rows| - 1], rows[|rows| - 1];
      RowsDistinct(before) &&
      forall i :: 0 <= i < |before| ==> before[i].step != last.step || before[i].callIndex != last.callIndex
  }

  /** The records are those of the finished turns, numbered upwards below `below`, and the notes
      name the turns whose replies all asked for tools. */
  ghost predicate TurnsRecorded(c: Config, records: seq<StepRecord>, segments: seq<seq<Call>>, markup: nat -> nat,
                                exhausted: set<nat>, below: nat)
  {
    if records == [] || segments == [] then records == [] && segments == []
    else
      var r, calls := records[|records| - 1], segments[|segments| - 1];
      && TurnsRecorded(c, records[..|records| - 1], segments[..|segments| - 1], markup, exhausted, r.index)
      && r.index < below && Recorded(c, r, calls, markup) && (r.index in exhausted <==> AlwaysTools(calls))
  }

  // ---- The audit rows of a run --------------------------------------------------------

  /** The rows from index `lo` on are of one step, numbered below their number. */
  ghost predicate Block(rows: seq<ToolRow>, lo: int, step: nat) {
    forall i :: lo <= i < |rows| && i >= 0 ==> rows[i].step == step && rows[i].callIndex < |rows| - lo
  }

  /** As many rows for every record as it counts tool calls, turn after turn. */
  ghost predicate RowsRecorded(rows: seq<ToolRow>, records: seq<StepRecord>)
    decreases |records|
  {
    if records == [] then rows == []
    else
      var r := records[|records| - 1];
      var lo := |rows| - r.toolCalls;
      0 <= lo && Block(rows, lo, r.index) && RowsRecorded(rows[..lo], records[..|records| - 1])
  }

  function RecordedTools(records: seq<StepRecord>): nat {
    if records == [] then 0 else RecordedTools(records[..|records| - 1]) + records[|records| - 1].toolCalls
  }

  ghost predicate HasRow(rows: seq<ToolRow>, step: nat, p: nat) {
    exists i :: 0 <= i < |rows| && rows[i].step == step && rows[i].callIndex == p
  }

  /** The rows from index `lo` on are of one step, which may have been stopped inside a batch: the
      first `n` tools have their rows, of those up to `m` any may be missing. */
  ghost predicate Partial(rows: seq<ToolRow>, lo: nat, step: nat, n: nat, m: nat) {
    && lo + n <= |rows| <= lo + m
    && (forall i :: lo <= i < |rows| ==> rows[i].step == step && rows[i].callIndex < m)
    && forall p: nat :: p < n ==> HasRow(rows, step, p)
  }

  // ---- Runs ---------------------------------------------------------------------------

  function StepOf(turn: seq<Call>): nat {
    if turn == [] then 0 else turn[0].step
  }

  /** The calls of a turn that was cut off: all of one turn, later than the recorded ones. */
  ghost predicate OpenTurn(c: Config, open: seq<Call>, next: nat) {
    open != [] ==> next <= open[0].step && TurnShape(c, open, open[0].step)
  }

  /** The rows of the turn that was cut off are those from index `lo` on. */
  ghost predicate OpenRows(c: Config, open: seq<Call>, rows: seq<ToolRow>, lo: nat) {
    var cap := c.maxToolCallsPerTurn;
    Partial(rows, lo, StepOf(open), FirmTools(open, cap), ToolCount(open, cap))
  }

  /** The turn was not stopped in the middle of anything: every reply asked for tools, and all of
      them have run. */
  ghost predicate Untorn(c: Config, open: seq<Call>, rows: seq<ToolRow>, lo: nat) {
    AlwaysTools(open) && |rows| == lo + ToolCount(open, c.maxToolCallsPerTurn)
  }

  /** The turn had used up its calls without an answer. */
  ghost predicate UsedUp(c: Config, open: seq<Call>, rows: seq<ToolRow>, lo: nat) {
    |open| > c.maxToolIterations && Untorn(c, open, rows, lo)
  }

  /** A run: finished turns, each with its record and its rows, and after them the calls and rows
      of at most one turn that was cut off. */
  ghost predicate HasParts(c: Config, h: History, markup: nat -> nat, exhausted: set<nat>, rows: seq<ToolRow>) {
    var lo := RecordedTools(h.records);
    && h.trace == Flatten(h.segments) + h.open && OpenTurn(c, h.open, h.next)
    && TurnsRecorded(c, h.records, h.segments, markup, exhausted, h.next)
    && lo <= |rows| && RowsRecorded(rows[..lo], h.records) && OpenRows(c, h.open, rows, lo)
    && RowsDistinct(rows)
    && forall s :: s in exhausted ==> s < h.next || (s == StepOf(h.open) && UsedUp(c, h.open, rows, lo))
  }

  /** Mentioned where the parts of a run matter: elsewhere `WellRun` stays folded. */
  ghost predicate Opened(h: History) {
    true
  }

  ghost predicate WellRun(c: Config, h: History, markup: nat -> nat, exhausted: set<nat>, rows: seq<ToolRow>) {
    forall g: History {:trigger Opened(g)} :: Opened(g) && g == h ==> HasParts(c, g, markup, exhausted, rows)
  }

  lemma WellRunParts(c: Config, h: History, markup: nat -> nat, exhausted: set<nat>, rows: seq<ToolRow>)
    requires WellRun(c, h, markup, exhausted, rows)
    ensures HasParts(c, h, markup, exhausted, rows)
  {
    assert Opened(h);
  }

  /** The rows in the middle of a turn: `settled` from before it, and `n` of its own. */
  ghost predicate TurnRows(settled: seq<ToolRow>, rows: seq<ToolRow>, step: nat, n: nat) {
    && |rows| == |settled| + n && rows[..|settled|] == settled && RowsDistinct(rows)
    && Block(rows, |settled|, step) && StepsBelow(settled, step)
  }

  /** … with no more executions than rows. */
  ghost predicate Audited(settled: seq<ToolRow>, rows: seq<ToolRow>, executed: nat, step: nat, n: nat) {
    executed <= |rows| && TurnRows(settled, rows, step, n)
  }

  /** … and when it was stopped inside a batch of the tools from `n` to `m`, some of which may have
      begun without leaving a row. */
  ghost predicate TornRows(settled: seq<ToolRow>, rows: seq<ToolRow>, executed: nat, step: nat, n: nat, m: nat) {
    && executed <= |settled| + m
    && |settled| <= |rows| && rows[..|settled|] == settled && RowsDistinct(rows) && StepsBelow(settled, step)
    && Partial(rows, |settled|, step, n, m)
  }

  /** A turn that was cut off, and its rows. */
  ghost predicate IsTorn(c: Config, settled: seq<ToolRow>, rows: seq<ToolRow>, executed: nat, calls: seq<Call>, step: nat,
                         whole: bool)
  {
    var cap := c.maxToolCallsPerTurn;
    && TurnShape(c, calls, step)
    && TornRows(settled, rows, executed, step, FirmTools(calls, cap), ToolCount(calls, cap))
    && (whole ==> Untorn(c, calls, rows, |settled|))
  }

  /** Folded, like `WellRun`. */
  ghost predicate Torn(c: Config, settled: seq<ToolRow>, rows: seq<ToolRow>, executed: nat, calls: seq<Call>, step: nat,
                       whole: bool)
  {
    forall k: seq<Call> {:trigger Looked(k)} :: Looked(k) && k == calls ==> IsTorn(c, settled, rows, executed, k, step, whole)
  }

  ghost predicate StepsBelow(rows: seq<ToolRow>, step: nat) {
    forall i :: 0 <= i < |rows| ==> rows[i].step < step
  }

  // ---- How a run grows ----------------------------------------------------------------

  lemma {:induction false} CostAppend(a: seq<Call>, b: seq<Call>)
    ensures Cost(a + b) == Cost(a) + Cost(b)
  {
    if b == [] {
      assert a + b == a;
    } else {
      CostAppend(a, b[..|b| - 1]);
      assert (a + b)[..|a + b| - 1] == a + b[..|b| - 1];
    }
  }

  lemma TurnGrows(c: Config, calls: seq<Call>, step: nat, call: Call)
    requires TurnShape(c, calls, step) && |calls| <= c.maxToolIterations && call.step == step
    requires WellPaired(call.conversation) && |call.conversation| == 2 * |calls| + 1
    requires |calls| == c.maxToolIterations ==> call.offered == {}
    requires calls != [] ==> FollowsUp(c, calls[|calls| - 1], call.conversation)
    ensures TurnShape(c, calls + [call], step)
  {
    assert (calls + [call])[..|calls|] == calls;
  }

  lemma {:induction false} NumbersBelow(c: Config, records: seq<StepRecord>, segments: seq<seq<Call>>, markup: nat -> nat,
                                        exhausted: set<nat>, below: nat, s: nat, higher: nat)
    requires TurnsRecorded(c, records, segments, markup, exhausted, below) && below <= s && below <= higher
    ensures TurnsRecorded(c, records, segments, markup, exhausted + {s}, higher)
    ensures TurnsRecorded(c, records, segments, markup, exhausted, higher)
  {
    if records != [] {
      var r := records[|records| - 1];
      NumbersBelow(c, records[..|records| - 1], segments[..|segments| - 1], markup, exhausted, r.index, s, r.index);
    }
  }

  /** The run after a turn that was cut off by a failure. */
  function CutOff(h: History, calls: seq<Call>): History {
    h.(trace := h.trace + calls, open := calls)
  }

  /** The run after a finished turn. */
  function Closed(h: History, calls: seq<Call>, r: StepRecord): History {
    History(h.trace + calls, h.segments + [calls], [], h.records + [r], r.index + 1)
  }

  lemma TurnCutOff(c: Config, h: History, markup: nat -> nat, exhausted: set<nat>, calls: seq<Call>, step: nat,
                   noted: set<nat>, settled: seq<ToolRow>, rows: seq<ToolRow>, executed: nat, whole: bool)
    requires WellRun(c, h, markup, exhausted, settled) && h.open == [] && h.next <= step
    requires Torn(c, settled, rows, executed, calls, step, whole)
    requires noted == exhausted || (noted == exhausted + {step} && UsedUp(c, calls, rows, |settled|))
    ensures WellRun(c, CutOff(h, calls), markup, noted, rows)
  {
    FinishedParts(c, h, markup, exhausted, settled);
    assert Looked(calls);
    if calls != [] {
      EveryCallShaped(c, calls, step, 0);
    }
    NumbersBelow(c, h.records, h.segments, markup, exhausted, h.next, step, h.next);
    assert HasParts(c, CutOff(h, calls), markup, noted, rows);
  }

  lemma TurnAppended(c: Config, h: History, markup: nat -> nat, exhausted: set<nat>, calls: seq<Call>, r: StepRecord,
                     noted: set<nat>)
    requires TurnsRecorded(c, h.records, h.segments, markup, exhausted, h.next)
    requires Recorded(c, r, calls, markup) && h.next <= r.index && r.index !in exhausted
    requires noted == if AlwaysTools(calls) then exhausted + {r.index} else exhausted
    ensures TurnsRecorded(c, h.records + [r], h.segments + [calls], markup, noted, r.index + 1)
  {
    var segments, records := h.segments + [calls], h.records + [r];
    assert segments[..|segments| - 1] == h.segments && records[..|records| - 1] == h.records;
    NumbersBelow(c, h.records, h.segments, markup, exhausted, h.next, r.index, r.index);
  }

  lemma FlattenAppended(segments: seq<seq<Call>>, calls: seq<Call>)
    ensures Flatten(segments + [calls]) == Flatten(segments) + calls
  {
    assert (segments + [calls])[..|segments|] == segments;
  }

  lemma RowsAppended(records: seq<StepRecord>, r: StepRecord, settled: seq<ToolRow>, rows: seq<ToolRow>)
    requires RowsRecorded(settled, records) && TurnRows(settled, rows, r.index, r.toolCalls)
    ensures RowsRecorded(rows, records + [r])
  {
    assert (records + [r])[..|records|] == records;
  }

  lemma FinishedParts(c: Config, h: History, markup: nat -> nat, exhausted: set<nat>, rows: seq<ToolRow>)
    requires WellRun(c, h, markup, exhausted, rows) && h.open == []
    ensures h.trace == Flatten(h.segments) && RowsRecorded(rows, h.records) && |rows| == RecordedTools(h.records)
    ensures TurnsRecorded(c, h.records, h.segments, markup, exhausted, h.next)
    ensures forall s :: s in exhausted ==> s < h.next
  {
    WellRunParts(c, h, markup, exhausted, rows);
    assert rows[..|rows|] == rows && Flatten(h.segments) + [] == Flatten(h.segments);
  }

  lemma RunExtended(c: Config, h: History, markup: nat -> nat, exhausted: set<nat>, calls: seq<Call>, r: StepRecord,
                    noted: set<nat>, settled: seq<ToolRow>, rows: seq<ToolRow>)
    requires WellRun(c, h, markup, exhausted, settled) && h.open == []
    requires TurnsRecorded(c, h.records + [r], h.segments + [calls], markup, noted, r.index + 1)
    requires h.next <= r.index && noted <= exhausted + {r.index} && TurnRows(settled, rows, r.index, r.toolCalls)
    ensures WellRun(c, Closed(h, calls, r), markup, noted, rows)
  {
    FinishedParts(c, h, markup, exhausted, settled);
    FlattenAppended(h.segments, calls);
    RowsAppended(h.records, r, settled, rows);
    PartsOfFinished(c, h.trace + calls, h.segments + [calls], h.records + [r], r.index + 1, markup, noted, rows);
  }

  lemma TurnClosed(c: Config, h: History, markup: nat -> nat, exhausted: set<nat>, calls: seq<Call>, r: StepRecord,
                   noted: set<nat>, settled: seq<ToolRow>, rows: seq<ToolRow>)
    requires WellRun(c, h, markup, exhausted, settled) && h.open == []
    requires Recorded(c, r, calls, markup) && h.next <= r.index && TurnRows(settled, rows, r.index, r.toolCalls)
    requires noted == if AlwaysTools(calls) then exhausted + {r.index} else exhausted
    ensures WellRun(c, Closed(h, calls, r), markup, noted, rows)
  {
    FinishedParts(c, h, markup, exhausted, settled);
    TurnAppended(c, h, markup, exhausted, calls, r, noted);
    RunExtended(c, h, markup, exhausted, calls, r, noted, settled, rows);
  }

  lemma {:induction false} AsManyRows(rows: seq<ToolRow>, records: seq<StepRecord>)
    requires RowsRecorded(rows, records)
    ensures |rows| == RecordedTools(records)
    decreases |records|
  {
    if records != [] {
      AsManyRows(rows[..|rows| - records[|records| - 1].toolCalls], records[..|records| - 1]);
    }
  }

  lemma PartsOfFinished(c: Config, trace: seq<Call>, segments: seq<seq<Call>>, records: seq<StepRecord>, next: nat,
                        markup: nat -> nat, exhausted: set<nat>, rows: seq<ToolRow>)
    requires trace == Flatten(segments)
    requires TurnsRecorded(c, records, segments, markup, exhausted, next) && RowsRecorded(rows, records)
    requires RowsDistinct(rows) && forall s :: s in exhausted ==> s < next
    ensures WellRun(c, History(trace, segments, [], records, next), markup, exhausted, rows)
  {
    AsManyRows(rows, records);
    assert rows[..|rows|] == rows && Flatten(segments) + [] == Flatten(segments);
    assert HasParts(c, History(trace, segments, [], records, next), markup, exhausted, rows);
  }

  /** How a turn ends: cut off, perhaps when it was noted already that it had used up its calls, or
      ready to be recorded. */
  ghost predicate Leaves(c: Config, markup: nat -> nat, calls: seq<Call>, failed: bool, whole: bool, r: StepRecord, step: nat,
                         exhausted: set<nat>, noted: set<nat>, settled: seq<ToolRow>, rows: seq<ToolRow>, executed: nat)
  {
    if failed then
      && Torn(c, settled, rows, executed, calls, step, whole)
      && (noted == exhausted || (noted == exhausted + {step} && UsedUp(c, calls, rows, |settled|)))
    else
      && Recorded(c, r, calls, markup) && r.index == step && Audited(settled, rows, executed, step, r.toolCalls)
      && noted == if AlwaysTools(calls) then exhausted + {step} else exhausted
  }

  /** How a turn leaves the run: with a record, or with open calls. */
  lemma TurnSettled(c: Config, h: History, markup: nat -> nat, exhausted: set<nat>, calls: seq<Call>, failed: bool,
                    whole: bool, r: StepRecord, step: nat, noted: set<nat>, settled: seq<ToolRow>, rows: seq<ToolRow>,
                    executed: nat)
    returns (after: History)
    requires WellRun(c, h, markup, exhausted, settled) && h.open == [] && h.next <= step
    requires Leaves(c, markup, calls, failed, whole, r, step, exhausted, noted, settled, rows, executed)
    ensures WellRun(c, after, markup, noted, rows) && after.trace == h.trace + calls && after.next <= step + 1
    ensures after == if failed then CutOff(h, calls) else Closed(h, calls, r)
    ensures executed <= ToolCount(after.trace, c.maxToolCallsPerTurn)
    ensures failed && whole ==> Whole(c, after, rows)
    ensures !failed ==> |after.trace| > |h.trace|
  {
    AllRowsThere(c, h, markup, exhausted, settled);
    ToolCountJoined(h.trace, calls, c.maxToolCallsPerTurn);
    if failed {
      assert Looked(calls);
      TurnCutOff(c, h, markup, exhausted, calls, step, noted, settled, rows, executed, whole);
      after := CutOff(h, calls);
    } else {
      RecordSums(c, markup, step, calls);
      TurnClosed(c, h, markup, exhausted, calls, r, noted, settled, rows);
      after := Closed(h, calls, r);
    }
  }

  /** The run was not stopped in the middle of anything. */
  ghost predicate Whole(c: Config, h: History, rows: seq<ToolRow>) {
    AlwaysTools(h.open) && |rows| == ToolCount(h.trace, c.maxToolCallsPerTurn)
  }

  /** Between two turns every tool that was asked for has its row. */
  lemma AllRowsThere(c: Config, h: History, markup: nat -> nat, exhausted: set<nat>, rows: seq<ToolRow>)
    requires WellRun(c, h, markup, exhausted, rows) && h.open == []
    ensures |rows| == ToolCount(h.trace, c.maxToolCallsPerTurn)
  {
    FinishedParts(c, h, markup, exhausted, rows);
    RecordedRowsCount(c, h.records, h.segments, markup, exhausted, h.next, rows);
  }

  /** No step has numbers from later ones. */
  lemma {:induction false} RecordedSteps(c: Config, records: seq<StepRecord>, segments: seq<seq<Call>>, markup: nat -> nat,
                                         exhausted: set<nat>, below: nat, rows: seq<ToolRow>, step: nat)
    requires TurnsRecorded(c, records, segments, markup, exhausted, below) && RowsRecorded(rows, records) && below <= step
    ensures StepsBelow(rows, step)
  {
    if records != [] {
      var n := |records| - 1;
      var lo := |rows| - records[n].toolCalls;
      RecordedSteps(c, records[..n], segments[..|segments| - 1], markup, exhausted, records[n].index, rows[..lo], step);
      assert forall i :: 0 <= i < lo ==> rows[..lo][i] == rows[i];
    }
  }

  /** The rows when a new turn begins. */
  lemma NoneRunYet(c: Config, h: History, markup: nat -> nat, exhausted: set<nat>, rows: seq<ToolRow>, step: nat)
    requires WellRun(c, h, markup, exhausted, rows) && h.open == [] && h.next <= step
    ensures TurnRows(rows, rows, step, 0) && |rows| == ToolCount(h.trace, c.maxToolCallsPerTurn)
  {
    WellRunParts(c, h, markup, exhausted, rows);
    FinishedParts(c, h, markup, exhausted, rows);
    AllRowsThere(c, h, markup, exhausted, rows);
    assert rows[..|rows|] == rows;
    RecordedSteps(c, h.records, h.segments, markup, exhausted, h.next, rows, step);
  }

  // ---- How a turn grows ---------------------------------------------------------------

  /** Mentioned where the state of a turn matters: elsewhere `Turning` and `Answered` stay folded. */
  ghost predicate Looked(calls: seq<Call>) {
    true
  }

  ghost predicate Turning(c: Config, markup: nat -> nat, index: nat, calls: seq<Call>, conversation: seq<Message>, t: StepRecord) {
    forall k: seq<Call> {:trigger Looked(k)} :: Looked(k) && k == calls ==> IsTurning(c, markup, index, k, conversation, t)
  }

  ghost predicate Answered(c: Config, markup: nat -> nat, index: nat, calls: seq<Call>, conversation: seq<Message>, t: StepRecord) {
    forall k: seq<Call> {:trigger Looked(k)} :: Looked(k) && k == calls ==> IsAnswered(c, markup, index, k, conversation, t)
  }

  /** Before a model call: the calls made, the conversation the next one carries, the totals. */
  ghost predicate IsTurning(c: Config, markup: nat -> nat, index: nat, calls: seq<Call>, conversation: seq<Message>, t: StepRecord) {
    && TurnShape(c, calls, index) && AlwaysTools(calls)
    && t == RecordOf(c, markup, index, calls)
    && WellPaired(conversation) && |conversation| == 2 * |calls| + 1
    && (calls != [] ==> FollowsUp(c, calls[|calls| - 1], conversation))
  }

  /** After it: the last call carried that conversation. */
  ghost predicate IsAnswered(c: Config, markup: nat -> nat, index: nat, calls: seq<Call>, conversation: seq<Message>, t: StepRecord) {
    && calls != [] && TurnShape(c, calls, index) && AlwaysTools(calls[..|calls| - 1])
    && t == RecordOf(c, markup, index, calls)
    && WellPaired(conversation)
    && |calls[|calls| - 1].conversation| == |conversation| == 2 * |calls| - 1
    && calls[|calls| - 1].conversation[1..] == conversation[1..]
  }

  lemma TurnBegins(c: Config, markup: nat -> nat, index: nat, first: Message)
    requires IsText(first)
    ensures Turning(c, markup, index, [], [first], StepRecord(index, "", 0, 0, 0, 0))
  {
    assert IsTurning(c, markup, index, [], [first], StepRecord(index, "", 0, 0, 0, 0));
  }

  /** Between two calls every reply has asked for tools. */
  lemma TurnSoFar(c: Config, markup: nat -> nat, index: nat, calls: seq<Call>, conversation: seq<Message>, t: StepRecord)
    requires Turning(c, markup, index, calls, conversation, t)
    ensures TurnShape(c, calls, index) && AlwaysTools(calls) && t == RecordOf(c, markup, index, calls)
    ensures t.modelCalls == |calls|
  {
    assert Looked(calls);
  }

  lemma AskedStep(c: Config, markup: nat -> nat, index: nat, calls: seq<Call>, conversation: seq<Message>, t: StepRecord, call: Call)
    requires Turning(c, markup, index, calls, conversation, t) && |calls| <= c.maxToolIterations
    requires call.step == index && (|calls| == c.maxToolIterations ==> call.offered == {})
    requires call.conversation == conversation || (calls == [] && |call.conversation| == 1 && IsText(call.conversation[0]))
    ensures Answered(c, markup, index, calls + [call], conversation, AddUp(c, markup, t, call.answer))
  {
    assert Looked(calls);
    assert (calls + [call])[..|calls|] == calls;
    if call.conversation != conversation {
      assert call.conversation[1..] == conversation[1..];
    }
    TurnGrows(c, calls, index, call);
    assert IsAnswered(c, markup, index, calls + [call], conversation, AddUp(c, markup, t, call.answer));
  }

  lemma RespondedStep(c: Config, markup: nat -> nat, index: nat, calls: seq<Call>, conversation: seq<Message>, t: StepRecord,
                      results: seq<ToolResult>)
    requires calls != [] && Answered(c, markup, index, calls, conversation, t)
    requires var a := calls[|calls| - 1].answer;
             a.calls != [] && Matches(Requested(a, c.maxToolCallsPerTurn), results)
    ensures var a := calls[|calls| - 1].answer;
            Turning(c, markup, index, calls, Extended(c, conversation, a, results), t)
  {
    assert Looked(calls);
    var a := calls[|calls| - 1].answer;
    var request, response := Message(Assistant, a.text, Requested(a, c.maxToolCallsPerTurn), []), Message(User, "", [], results);
    ExchangeAppended(conversation, request, response);
    var longer := conversation + [request, response];
    assert longer[1..|conversation|] == conversation[1..];
    assert forall k :: 0 <= k < |calls| - 1 ==> calls[k] == calls[..|calls| - 1][k];
    assert IsTurning(c, markup, index, calls, Extended(c, conversation, a, results), t);
  }

  /** The conversation with an answer and the results of its tools appended. */
  function Extended(c: Config, conversation: seq<Message>, a: Answer, results: seq<ToolResult>): seq<Message> {
    conversation + [Message(Assistant, a.text, Requested(a, c.maxToolCallsPerTurn), []), Message(User, "", [], results)]
  }

  /** A turn that ended, with an answer or with its permitted calls spent, is ready to record. */
  lemma TurnEnds(c: Config, markup: nat -> nat, index: nat, calls: seq<Call>, conversation: seq<Message>, t: StepRecord)
    requires Answered(c, markup, index, calls, conversation, t)
    requires Ended(c, calls)
    ensures Recorded(c, t, calls, markup) && t.index == index
    ensures AlwaysTools(calls) <==> calls[|calls| - 1].answer.calls != []
  {
    assert Looked(calls);
    RecordSums(c, markup, index, calls);
    assert forall k :: 0 <= k < |calls| - 1 ==> calls[k] == calls[..|calls| - 1][k];
  }

  // ---- How a turn is cut off ----------------------------------------------------------

  /** The tools of all batches but the last have their rows, numbered without a gap. */
  lemma FirmRows(settled: seq<ToolRow>, rows: seq<ToolRow>, step: nat, n: nat)
    requires TurnRows(settled, rows, step, n)
    ensures forall p: nat :: p < n ==> HasRow(rows, step, p)
  {
    RowCountOfBlock(rows, |settled|, step, step);
    NoEarlierRows(settled, step);
    NumberedInBlock(rows, |settled|, step);
    forall p: nat | p < n
      ensures HasRow(rows, step, p)
    {
      NumbersCoverAll(rows, step, p);
    }
  }

  lemma {:induction false} NoEarlierRows(settled: seq<ToolRow>, step: nat)
    requires StepsBelow(settled, step)
    ensures RowCount(settled, step) == 0
  {
    if settled != [] {
      NoEarlierRows(settled[..|settled| - 1], step);
    }
  }

  /** Cut off after the batch of the last reply, or where that reply asked for nothing. */
  lemma AuditedIsTorn(settled: seq<ToolRow>, rows: seq<ToolRow>, executed: nat, step: nat, k: nat, n: nat)
    requires Audited(settled, rows, executed, step, n) && k <= n
    ensures TornRows(settled, rows, executed, step, k, n)
  {
    FirmRows(settled, rows, step, n);
  }

  /** Cut off inside a batch: what ran before it has its rows. */
  lemma BatchIsTorn(settled: seq<ToolRow>, before: seq<ToolRow>, rows: seq<ToolRow>, executed: nat, step: nat, n: nat, m: nat)
    requires TurnRows(settled, before, step, n) && executed <= |settled| + m
    requires |before| <= |rows| <= |settled| + m && rows[..|before|] == before && RowsDistinct(rows)
    requires forall i :: |before| <= i < |rows| ==> rows[i].step == step && rows[i].callIndex < m
    requires n <= m
    ensures TornRows(settled, rows, executed, step, n, m)
  {
    FirmRows(settled, before, step, n);
    assert rows[..|settled|] == before[..|settled|];
    forall p: nat | p < n
      ensures HasRow(rows, step, p)
    {
      assert HasRow(before, step, p);
      var i :| 0 <= i < |before| && before[i].step == step && before[i].callIndex == p;
      assert rows[i] == before[i];
    }
    forall i | |settled| <= i < |before|
      ensures rows[i].step == step && rows[i].callIndex < m
    {
      assert rows[i] == before[i];
    }
  }

  lemma ToolCountStep(calls: seq<Call>, cap: nat)
    ensures FirmTools(calls, cap) <= ToolCount(calls, cap)
  {}

  /** Between two calls. */
  lemma CutBetween(c: Config, markup: nat -> nat, index: nat, calls: seq<Call>, conversation: seq<Message>, t: StepRecord,
                   settled: seq<ToolRow>, rows: seq<ToolRow>, executed: nat, whole: bool)
    requires Turning(c, markup, index, calls, conversation, t) && Audited(settled, rows, executed, index, t.toolCalls)
    ensures Torn(c, settled, rows, executed, calls, index, whole)
  {
    TurnSoFar(c, markup, index, calls, conversation, t);
    RecordSums(c, markup, index, calls);
    ToolCountStep(calls, c.maxToolCallsPerTurn);
    AuditedIsTorn(settled, rows, executed, index, FirmTools(calls, c.maxToolCallsPerTurn), t.toolCalls);
    assert IsTorn(c, settled, rows, executed, calls, index, whole);
  }

  /** Inside the batch of the last reply. */
  lemma CutInBatch(c: Config, markup: nat -> nat, index: nat, calls: seq<Call>, conversation: seq<Message>, t: StepRecord,
                   settled: seq<ToolRow>, rows: seq<ToolRow>, executed: nat, offset: nat)
    requires Answered(c, markup, index, calls, conversation, t) && calls != []
    requires t.toolCalls == offset + |Requested(calls[|calls| - 1].answer, c.maxToolCallsPerTurn)|
    requires TornRows(settled, rows, executed, index, offset, t.toolCalls)
    ensures Torn(c, settled, rows, executed, calls, index, false)
  {
    assert Looked(calls);
    RecordSums(c, markup, index, calls);
    assert IsTorn(c, settled, rows, executed, calls, index, false);
  }

  /** After the last call, before the record. */
  lemma CutAfter(c: Config, markup: nat -> nat, index: nat, calls: seq<Call>, t: StepRecord,
                 settled: seq<ToolRow>, rows: seq<ToolRow>, executed: nat)
    requires Recorded(c, t, calls, markup) && t.index == index && Audited(settled, rows, executed, index, t.toolCalls)
    ensures Torn(c, settled, rows, executed, calls, index, false)
    ensures AlwaysTools(calls) ==> UsedUp(c, calls, rows, |settled|)
  {
    RecordSums(c, markup, index, calls);
    ToolCountStep(calls, c.maxToolCallsPerTurn);
    AuditedIsTorn(settled, rows, executed, index, FirmTools(calls, c.maxToolCallsPerTurn), t.toolCalls);
    assert IsTorn(c, settled, rows, executed, calls, index, false);
  }

  // ---- What holds of every run --------------------------------------------------------

  lemma {:induction false} EveryCallGuarded(c: Config, trace: seq<Call>, k: nat)
    requires Guarded(c, trace) && k < |trace|
    ensures k < c.maxSteps && Cost(trace[..k]) < c.maxCost
  {
    if k < |trace| - 1 {
      EveryCallGuarded(c, trace[..|trace| - 1], k);
      assert trace[..|trace| - 1][..k] == trace[..k];
    }
  }

  /** A run makes at most `max_steps` model calls, and each of them started below the cost
      ceiling: what is spent in the end exceeds it by less than the last call cost. */
  lemma CeilingsHold(c: Config, trace: seq<Call>)
    requires Guarded(c, trace) && trace != []
    ensures |trace| <= c.maxSteps
    ensures Cost(trace) < c.maxCost + trace[|trace| - 1].answer.cost
    ensures forall k :: 0 <= k < |trace| ==> k < c.maxSteps && Cost(trace[..k]) < c.maxCost
  {
    forall k | 0 <= k < |trace|
      ensures k < c.maxSteps && Cost(trace[..k]) < c.maxCost
    {
      EveryCallGuarded(c, trace, k);
    }
  }

  /** Rows never repeat their step and call index, as the database demands. */
  lemma {:induction false} ToolRowsDiffer(rows: seq<ToolRow>, i: nat, j: nat)
    requires RowsDistinct(rows) && i < j < |rows|
    ensures rows[i].step != rows[j].step || rows[i].callIndex != rows[j].callIndex
  {
    if j < |rows| - 1 {
      ToolRowsDiffer(rows[..|rows| - 1], i, j);
    } else {
      assert rows[..|rows| - 1][i] == rows[i];
    }
  }

  /** The i-th record is that of the i-th finished turn. */
  lemma {:induction false} EveryTurnRecorded(c: Config, records: seq<StepRecord>, segments: seq<seq<Call>>,
                                             markup: nat -> nat, exhausted: set<nat>, below: nat, i: nat)
    requires TurnsRecorded(c, records, segments, markup, exhausted, below) && i < |records|
    ensures |records| == |segments| && records[i].index < below
    ensures Recorded(c, records[i], segments[i], markup) && (records[i].index in exhausted <==> AlwaysTools(segments[i]))
    ensures i + 1 < |records| ==> records[i].index < records[i + 1].index
  {
    var n := |records| - 1;
    SameLength(c, records, segments, markup, exhausted, below);
    if i < n {
      EveryTurnRecorded(c, records[..n], segments[..n], markup, exhausted, records[n].index, i);
    }
  }

  lemma {:induction false} SameLength(c: Config, records: seq<StepRecord>, segments: seq<seq<Call>>,
                                      markup: nat -> nat, exhausted: set<nat>, below: nat)
    requires TurnsRecorded(c, records, segments, markup, exhausted, below)
    ensures |records| == |segments|
  {
    if records != [] {
      SameLength(c, records[..|records| - 1], segments[..|segments| - 1], markup, exhausted, records[|records| - 1].index);
    }
  }

  function RecordedCost(records: seq<StepRecord>): nat {
    if records == [] then 0 else RecordedCost(records[..|records| - 1]) + records[|records| - 1].cost
  }

  function RecordedBillable(records: seq<StepRecord>): nat {
    if records == [] then 0 else RecordedBillable(records[..|records| - 1]) + records[|records| - 1].billable
  }

  lemma {:induction false} BillableAppend(a: seq<Call>, b: seq<Call>, markup: nat -> nat)
    ensures Billable(a + b, markup) == Billable(a, markup) + Billable(b, markup)
  {
    if b == [] {
      assert a + b == a;
    } else {
      BillableAppend(a, b[..|b| - 1], markup);
      assert (a + b)[..|a + b| - 1] == a + b[..|b| - 1];
    }
  }

  lemma {:induction false} SumsOfRecords(c: Config, records: seq<StepRecord>, segments: seq<seq<Call>>,
                                         markup: nat -> nat, exhausted: set<nat>, below: nat)
    requires TurnsRecorded(c, records, segments, markup, exhausted, below)
    ensures RecordedCost(records) == Cost(Flatten(segments))
    ensures RecordedBillable(records) == Billable(Flatten(segments), markup)
  {
    if records != [] {
      var n, m := |records| - 1, |segments| - 1;
      SumsOfRecords(c, records[..n], segments[..m], markup, exhausted, records[n].index);
      RecordSums(c, markup, records[n].index, segments[m]);
      CostAppend(Flatten(segments[..m]), segments[m]);
      BillableAppend(Flatten(segments[..m]), segments[m], markup);
    }
  }

  /** Nothing spent is lost: what the run spent is what its step records say, plus the calls of
      at most one turn that did not finish; what is billable is the marked-up cost of exactly
      the platform's calls in recorded turns. */
  lemma CostIsConserved(c: Config, h: History, markup: nat -> nat, exhausted: set<nat>, rows: seq<ToolRow>)
    requires WellRun(c, h, markup, exhausted, rows)
    ensures Cost(h.trace) == RecordedCost(h.records) + Cost(h.open)
    ensures |h.open| <= |h.trace| && RecordedBillable(h.records) == Billable(h.trace[..|h.trace| - |h.open|], markup)
    ensures OpenTurn(c, h.open, h.next)
  {
    WellRunParts(c, h, markup, exhausted, rows);
    SumsOfRecords(c, h.records, h.segments, markup, exhausted, h.next);
    CostAppend(Flatten(h.segments), h.open);
    assert h.trace[..|h.trace| - |h.open|] == Flatten(h.segments);
  }

  lemma {:induction false} ToolCountBound(calls: seq<Call>, cap: nat)
    ensures ToolCount(calls, cap) <= |calls| * cap
  {
    if calls != [] {
      ToolCountBound(calls[..|calls| - 1], cap);
      assert |calls| * cap == (|calls| - 1) * cap + cap;
    }
  }

  lemma TurnLength(c: Config, calls: seq<Call>, step: nat)
    requires TurnShape(c, calls, step)
    ensures |calls| <= c.maxToolIterations + 1
  {}

  lemma {:induction false} OnlyTheLastAnswers(c: Config, calls: seq<Call>, step: nat, j: nat)
    requires TurnShape(c, calls, step) && j < |calls| - 1
    ensures calls[j].answer.calls != [] && FollowsUp(c, calls[j], calls[j + 1].conversation)
  {
    if j < |calls| - 2 {
      OnlyTheLastAnswers(c, calls[..|calls| - 1], step, j);
    }
  }

  lemma {:induction false} EveryCallShaped(c: Config, calls: seq<Call>, step: nat, j: nat)
    requires TurnShape(c, calls, step) && j < |calls|
    ensures calls[j].step == step && WellPaired(calls[j].conversation) && |calls[j].conversation| == 2 * j + 1
    ensures j == c.maxToolIterations ==> calls[j].offered == {}
  {
    if j < |calls| - 1 {
      EveryCallShaped(c, calls[..|calls| - 1], step, j);
    }
  }

  // ---- Every turn, finished or not ----------------------------------------------------

  /** Call `k` is number `j` of its turn: the `j` calls before it in the run are those before it in
      the turn. Its conversation is one user turn followed by `j` pairs of an assistant turn with
      calls and the user turn that answers them one to one: the previous conversation, the
      previous answer and its results. */
  ghost predicate InTurn(c: Config, trace: seq<Call>, k: int, j: nat)
    decreases j
  {
    && j <= k < |trace| && j <= c.maxToolIterations
    && WellPaired(trace[k].conversation) && |trace[k].conversation| == 2 * j + 1
    && (j == c.maxToolIterations ==> trace[k].offered == {})
    && if j == 0 then k > 0 ==> trace[k - 1].step < trace[k].step
       else
         && trace[k - 1].step == trace[k].step && trace[k - 1].answer.calls != []
         && FollowsUp(c, trace[k - 1], trace[k].conversation)
         && InTurn(c, trace, k - 1, j - 1)
  }

  lemma {:induction false} InTurnOfPrefix(c: Config, trace: seq<Call>, more: seq<Call>, k: int, j: nat)
    requires InTurn(c, trace, k, j)
    ensures InTurn(c, trace + more, k, j)
    decreases j
  {
    if j > 0 {
      InTurnOfPrefix(c, trace, more, k - 1, j - 1);
    }
  }

  ghost predicate EndsBelow(trace: seq<Call>, step: nat) {
    trace != [] ==> trace[|trace| - 1].step < step
  }

  /** What a turn's shape says of its call `j`. */
  ghost predicate Shaped(c: Config, calls: seq<Call>, step: nat, j: nat)
    requires j < |calls|
  {
    && calls[j].step == step && j <= c.maxToolIterations
    && WellPaired(calls[j].conversation) && |calls[j].conversation| == 2 * j + 1
    && (j == c.maxToolIterations ==> calls[j].offered == {})
    && (j > 0 ==> calls[j - 1].answer.calls != [] && FollowsUp(c, calls[j - 1], calls[j].conversation))
  }

  lemma EveryCallIsShaped(c: Config, calls: seq<Call>, step: nat, j: nat)
    requires TurnShape(c, calls, step) && j < |calls|
    ensures Shaped(c, calls, step, j)
  {
    EveryCallShaped(c, calls, step, j);
    TurnLength(c, calls, step);
    if j > 0 {
      OnlyTheLastAnswers(c, calls, step, j - 1);
    }
  }

  lemma {:induction false} InTurnIfShaped(c: Config, before: seq<Call>, calls: seq<Call>, step: nat, trace: seq<Call>, j: nat)
    requires j < |calls| && EndsBelow(before, step) && trace == before + calls
    requires forall i :: 0 <= i <= j ==> Shaped(c, calls, step, i)
    ensures InTurn(c, trace, |before| + j, j)
    decreases j
  {
    assert Shaped(c, calls, step, j);
    if j > 0 {
      assert Shaped(c, calls, step, j - 1);
      InTurnIfShaped(c, before, calls, step, trace, j - 1);
    }
  }

  /** The calls of a turn after those of earlier ones. */
  lemma InTurnOfLast(c: Config, before: seq<Call>, calls: seq<Call>, step: nat, trace: seq<Call>, j: nat)
    requires TurnShape(c, calls, step) && j < |calls| && EndsBelow(before, step) && trace == before + calls
    ensures InTurn(c, trace, |before| + j, j)
  {
    forall i | 0 <= i <= j
      ensures Shaped(c, calls, step, i)
    {
      EveryCallIsShaped(c, calls, step, i);
    }
    InTurnIfShaped(c, before, calls, step, trace, j);
  }

  lemma LastStepBelow(c: Config, records: seq<StepRecord>, segments: seq<seq<Call>>,
                      markup: nat -> nat, exhausted: set<nat>, below: nat, step: nat)
    requires TurnsRecorded(c, records, segments, markup, exhausted, below) && below <= step
    ensures EndsBelow(Flatten(segments), step)
  {
    if segments != [] {
      var calls, index := segments[|segments| - 1], records[|records| - 1].index;
      EveryCallShaped(c, calls, index, |calls| - 1);
    }
  }

  lemma {:induction false} InRecordedTurn(c: Config, records: seq<StepRecord>, segments: seq<seq<Call>>,
                                          markup: nat -> nat, exhausted: set<nat>, below: nat, k: nat)
    returns (j: nat)
    requires TurnsRecorded(c, records, segments, markup, exhausted, below) && k < |Flatten(segments)|
    ensures InTurn(c, Flatten(segments), k, j)
  {
    var n, m := |records| - 1, |segments| - 1;
    var before := Flatten(segments[..m]);
    if k < |before| {
      j := InRecordedTurn(c, records[..n], segments[..m], markup, exhausted, records[n].index, k);
      InTurnOfPrefix(c, before, segments[m], k, j);
    } else {
      j := k - |before|;
      LastStepBelow(c, records[..n], segments[..m], markup, exhausted, records[n].index, records[n].index);
      InTurnOfLast(c, before, segments[m], records[n].index, before + segments[m], j);
    }
  }

  lemma InOpenTurn(c: Config, before: seq<Call>, open: seq<Call>, next: nat, j: nat)
    requires OpenTurn(c, open, next) && EndsBelow(before, next) && j < |open|
    ensures InTurn(c, before + open, |before| + j, j)
  {
    InTurnOfLast(c, before, open, open[0].step, before + open, j);
  }

  lemma InFinishedTurn(c: Config, records: seq<StepRecord>, segments: seq<seq<Call>>, markup: nat -> nat, exhausted: set<nat>,
                       next: nat, before: seq<Call>, open: seq<Call>, k: nat)
    returns (j: nat)
    requires TurnsRecorded(c, records, segments, markup, exhausted, next) && before == Flatten(segments) && k < |before|
    ensures InTurn(c, before + open, k, j)
  {
    j := InRecordedTurn(c, records, segments, markup, exhausted, next, k);
    InTurnOfPrefix(c, before, open, k, j);
  }

  /** At every model call of every run, in finished turns and in one that was cut off. */
  lemma ConversationsArePaired(c: Config, h: History, markup: nat -> nat, exhausted: set<nat>, rows: seq<ToolRow>, k: nat)
    returns (j: nat)
    requires WellRun(c, h, markup, exhausted, rows) && k < |h.trace|
    ensures InTurn(c, h.trace, k, j)
  {
    WellRunParts(c, h, markup, exhausted, rows);
    var before := Flatten(h.segments);
    if k < |before| {
      j := InFinishedTurn(c, h.records, h.segments, markup, exhausted, h.next, before, h.open, k);
    } else {
      j := k - |before|;
      LastStepBelow(c, h.records, h.segments, markup, exhausted, h.next, h.next);
      InOpenTurn(c, before, h.open, h.next, j);
    }
  }

  // ---- The tools that were run --------------------------------------------------------

  /** The tools run in a step. */
  function RowCount(rows: seq<ToolRow>, step: nat): nat {
    if rows == [] then 0
    else RowCount(rows[..|rows| - 1], step) + if rows[|rows| - 1].step == step then 1 else 0
  }

  /** The rows of a step are numbered below `n`. */
  ghost predicate NumberedBelow(rows: seq<ToolRow>, step: nat, n: nat) {
    forall i :: 0 <= i < |rows| && rows[i].step == step ==> rows[i].callIndex < n
  }

  lemma {:induction false} NoRows(rows: seq<ToolRow>, step: nat, i: nat)
    requires RowCount(rows, step) == 0 && i < |rows|
    ensures rows[i].step != step
  {
    if i < |rows| - 1 {
      NoRows(rows[..|rows| - 1], step, i);
    }
  }

  function Indices(rows: seq<ToolRow>, step: nat): set<nat> {
    if rows == [] then {}
    else
      var before, last := Indices(rows[..|rows| - 1], step), rows[|rows| - 1];
      if last.step == step then before + {last.callIndex} else before
  }

  lemma {:induction false} IndicesAreThose(rows: seq<ToolRow>, step: nat, p: nat)
    ensures p in Indices(rows, step) <==> exists i :: 0 <= i < |rows| && rows[i].step == step && rows[i].callIndex == p
  {
    if rows != [] {
      var n := |rows| - 1;
      IndicesAreThose(rows[..n], step, p);
      if i :| 0 <= i < |rows| && rows[i].step == step && rows[i].callIndex == p {
        assert i < n ==> rows[..n][i] == rows[i];
      }
    }
  }

  lemma {:induction false} AsManyIndices(rows: seq<ToolRow>, step: nat)
    requires RowsDistinct(rows)
    ensures |Indices(rows, step)| == RowCount(rows, step)
  {
    if rows != [] {
      var n := |rows| - 1;
      AsManyIndices(rows[..n], step);
      IndicesAreThose(rows[..n], step, rows[n].callIndex);
    }
  }

  function UpTo(n: nat): (s: set<nat>)
    ensures |s| == n && forall p: nat :: p in s <==> p < n
  {
    if n == 0 then {} else UpTo(n - 1) + {n - 1}
  }

  lemma NumbersCoverAll(rows: seq<ToolRow>, step: nat, p: nat)
    requires RowsDistinct(rows) && NumberedBelow(rows, step, RowCount(rows, step)) && p < RowCount(rows, step)
    ensures HasRow(rows, step, p)
  {
    var n, numbers := RowCount(rows, step), Indices(rows, step);
    AsManyIndices(rows, step);
    forall q | q in numbers
      ensures q in UpTo(n)
    {
      IndicesAreThose(rows, step, q);
    }
    assert UpTo(n) == numbers + (UpTo(n) - numbers);
    IndicesAreThose(rows, step, p);
  }

  lemma {:induction false} RowCountJoined(a: seq<ToolRow>, b: seq<ToolRow>, step: nat)
    ensures RowCount(a + b, step) == RowCount(a, step) + RowCount(b, step)
  {
    if b == [] {
      assert a + b == a;
    } else {
      RowCountJoined(a, b[..|b| - 1], step);
      assert (a + b)[..|a + b| - 1] == a + b[..|b| - 1];
    }
  }

  lemma {:induction false} RowCountOfOne(rows: seq<ToolRow>, own: nat, step: nat)
    requires forall i :: 0 <= i < |rows| ==> rows[i].step == own
    ensures RowCount(rows, step) == if own == step then |rows| else 0
  {
    if rows != [] {
      RowCountOfOne(rows[..|rows| - 1], own, step);
    }
  }

  /** A block at the end counts for its own step only. */
  lemma RowCountOfBlock(rows: seq<ToolRow>, lo: nat, own: nat, step: nat)
    requires lo <= |rows| && Block(rows, lo, own)
    ensures RowCount(rows, step) == RowCount(rows[..lo], step) + if own == step then |rows| - lo else 0
  {
    RowCountJoined(rows[..lo], rows[lo..], step);
    assert rows[..lo] + rows[lo..] == rows;
    RowCountOfOne(rows[lo..], own, step);
  }

  lemma {:induction false} NoRowsFrom(c: Config, records: seq<StepRecord>, segments: seq<seq<Call>>, markup: nat -> nat,
                                      exhausted: set<nat>, below: nat, rows: seq<ToolRow>, step: nat)
    requires TurnsRecorded(c, records, segments, markup, exhausted, below) && RowsRecorded(rows, records) && below <= step
    ensures RowCount(rows, step) == 0
  {
    if records != [] {
      var n := |records| - 1;
      var lo := |rows| - records[n].toolCalls;
      NoRowsFrom(c, records[..n], segments[..|segments| - 1], markup, exhausted, records[n].index, rows[..lo], step);
      RowCountOfBlock(rows, lo, records[n].index, step);
    }
  }

  lemma {:induction false} RowsOfRecord(c: Config, records: seq<StepRecord>, segments: seq<seq<Call>>, markup: nat -> nat,
                                        exhausted: set<nat>, below: nat, rows: seq<ToolRow>, i: nat)
    requires TurnsRecorded(c, records, segments, markup, exhausted, below) && RowsRecorded(rows, records) && i < |records|
    ensures RowCount(rows, records[i].index) == records[i].toolCalls && records[i].index < below
    ensures NumberedBelow(rows, records[i].index, records[i].toolCalls)
  {
    var n := |records| - 1;
    var lo := |rows| - records[n].toolCalls;
    RowCountOfBlock(rows, lo, records[n].index, records[i].index);
    if i < n {
      RowsOfRecord(c, records[..n], segments[..|segments| - 1], markup, exhausted, records[n].index, rows[..lo], i);
      NumberedBefore(rows, lo, records[n].index, records[i].index, records[i].toolCalls);
    } else {
      NoRowsFrom(c, records[..n], segments[..|segments| - 1], markup, exhausted, records[n].index, rows[..lo], records[n].index);
      NumberedInBlock(rows, lo, records[n].index);
    }
  }

  lemma NumberedBefore(rows: seq<ToolRow>, lo: nat, own: nat, step: nat, n: nat)
    requires lo <= |rows| && Block(rows, lo, own) && own != step && NumberedBelow(rows[..lo], step, n)
    ensures NumberedBelow(rows, step, n)
  {
    assert forall i :: 0 <= i < lo ==> rows[..lo][i] == rows[i];
  }

  lemma NumberedInBlock(rows: seq<ToolRow>, lo: nat, step: nat)
    requires lo <= |rows| && Block(rows, lo, step) && RowCount(rows[..lo], step) == 0
    ensures NumberedBelow(rows, step, |rows| - lo)
  {
    forall i | 0 <= i < |rows| && rows[i].step == step
      ensures rows[i].callIndex < |rows| - lo
    {
      if i < lo {
        NoRows(rows[..lo], step, i);
      }
    }
  }

  /** The numbers of a step's rows, whatever its place in the run. */
  lemma {:induction false} RecordedNumbers(c: Config, records: seq<StepRecord>, segments: seq<seq<Call>>, markup: nat -> nat,
                                           exhausted: set<nat>, below: nat, rows: seq<ToolRow>, step: nat)
    requires TurnsRecorded(c, records, segments, markup, exhausted, below) && RowsRecorded(rows, records)
    ensures NumberedBelow(rows, step, RowCount(rows, step))
  {
    if records != [] {
      var n := |records| - 1;
      var lo, own := |rows| - records[n].toolCalls, records[n].index;
      RowCountOfBlock(rows, lo, own, step);
      if step == own {
        NoRowsFrom(c, records[..n], segments[..|segments| - 1], markup, exhausted, own, rows[..lo], own);
        NumberedInBlock(rows, lo, own);
      } else {
        RecordedNumbers(c, records[..n], segments[..|segments| - 1], markup, exhausted, own, rows[..lo], step);
        NumberedBefore(rows, lo, own, step, RowCount(rows, step));
      }
    }
  }

  /** The tools of a step that surely have run: all of a recorded turn, all but those of the last
      reply when the turn was cut off. */
  function Firm(c: Config, h: History, rows: seq<ToolRow>, step: nat): nat {
    if h.open != [] && step == h.open[0].step then FirmTools(h.open, c.maxToolCallsPerTurn) else RowCount(rows, step)
  }

  /** In every run the rows of a step are numbered 0, 1, 2, … without a gap; only in the last batch
      of a turn that was cut off some may be missing. */
  lemma NumbersHaveNoGap(c: Config, h: History, markup: nat -> nat, exhausted: set<nat>, rows: seq<ToolRow>,
                         step: nat, p: nat)
    requires WellRun(c, h, markup, exhausted, rows) && p < Firm(c, h, rows, step)
    ensures exists i :: 0 <= i < |rows| && rows[i].step == step && rows[i].callIndex == p
  {
    WellRunParts(c, h, markup, exhausted, rows);
    if h.open != [] && step == h.open[0].step {
      assert HasRow(rows, step, p);
    } else {
      var lo := RecordedTools(h.records);
      RowsOfHistory(c, h, markup, exhausted, rows, step);
      RecordedNumbers(c, h.records, h.segments, markup, exhausted, h.next, rows[..lo], step);
      NumberedEarlier(rows, lo, StepOf(h.open), step, RowCount(rows, step));
      NumbersCoverAll(rows, step, p);
    }
  }

  lemma NumberedEarlier(rows: seq<ToolRow>, lo: nat, own: nat, step: nat, n: nat)
    requires lo <= |rows| && (lo < |rows| ==> own != step) && NumberedBelow(rows[..lo], step, n)
    requires forall i :: lo <= i < |rows| ==> rows[i].step == own
    ensures NumberedBelow(rows, step, n)
  {
    assert forall i :: 0 <= i < lo ==> rows[..lo][i] == rows[i];
  }

  /** The shape of every turn, and the number of tools run in it: those its replies asked for, up
      to the cap, but for some of the last reply when the turn was cut off. */
  ghost predicate Bounded(c: Config, turn: seq<Call>, rows: seq<ToolRow>) {
    var cap, n := c.maxToolCallsPerTurn, RowCount(rows, StepOf(turn));
    && 1 <= |turn| <= c.maxToolIterations + 1
    && (forall k :: 0 <= k < |turn| - 1 ==> turn[k].answer.calls != [])
    && FirmTools(turn, cap) <= n <= ToolCount(turn, cap) <= |turn| * cap
    && NumberedBelow(rows, StepOf(turn), ToolCount(turn, cap))
  }

  lemma ShapeIsBounded(c: Config, turn: seq<Call>, step: nat, rows: seq<ToolRow>)
    requires TurnShape(c, turn, step) && turn != []
    requires FirmTools(turn, c.maxToolCallsPerTurn) <= RowCount(rows, step) <= ToolCount(turn, c.maxToolCallsPerTurn)
    requires NumberedBelow(rows, step, ToolCount(turn, c.maxToolCallsPerTurn))
    ensures Bounded(c, turn, rows) && turn[0].step == step
  {
    EveryCallShaped(c, turn, step, 0);
    TurnLength(c, turn, step);
    ToolCountBound(turn, c.maxToolCallsPerTurn);
    forall k | 0 <= k < |turn| - 1
      ensures turn[k].answer.calls != []
    {
      OnlyTheLastAnswers(c, turn, step, k);
    }
  }

  /** A recorded turn makes at most one call more than the permitted tool rounds; the tools run in
      it are those its record counts, at most that many times the permitted tool calls. It is
      noted as exhausted exactly when none of its replies came without tool calls, which takes
      every permitted call. */
  lemma TurnIsBounded(c: Config, h: History, markup: nat -> nat, exhausted: set<nat>, rows: seq<ToolRow>, i: nat)
    requires WellRun(c, h, markup, exhausted, rows) && i < |h.records|
    ensures |h.records| == |h.segments|
    ensures var r, calls := h.records[i], h.segments[i];
            && Bounded(c, calls, rows) && calls[0].step == r.index && r.modelCalls == |calls|
            && r.toolCalls == RowCount(rows, r.index) == ToolCount(calls, c.maxToolCallsPerTurn)
            && (r.index in exhausted <==> forall k :: 0 <= k < |calls| ==> calls[k].answer.calls != [])
            && (r.index in exhausted ==> r.modelCalls == c.maxToolIterations + 1)
  {
    WellRunParts(c, h, markup, exhausted, rows);
    EveryTurnRecorded(c, h.records, h.segments, markup, exhausted, h.next, i);
    var r, calls, lo := h.records[i], h.segments[i], RecordedTools(h.records);
    RecordSums(c, markup, r.index, calls);
    RowsOfHistory(c, h, markup, exhausted, rows, r.index);
    RowsOfRecord(c, h.records, h.segments, markup, exhausted, h.next, rows[..lo], i);
    NumberedEarlier(rows, lo, StepOf(h.open), r.index, r.toolCalls);
    ToolCountStep(calls, c.maxToolCallsPerTurn);
    ShapeIsBounded(c, calls, r.index, rows);
  }

  lemma RowsOfHistory(c: Config, h: History, markup: nat -> nat, exhausted: set<nat>, rows: seq<ToolRow>, step: nat)
    requires WellRun(c, h, markup, exhausted, rows)
    ensures var lo := RecordedTools(h.records);
            lo <= |rows| && RowCount(rows, step) == RowCount(rows[..lo], step)
                                    + if h.open != [] && h.open[0].step == step then |rows| - lo else 0
  {
    WellRunParts(c, h, markup, exhausted, rows);
    var lo := RecordedTools(h.records);
    RowCountJoined(rows[..lo], rows[lo..], step);
    assert rows[..lo] + rows[lo..] == rows;
    RowCountOfOne(rows[lo..], StepOf(h.open), step);
  }

  /** A turn that was cut off is later than the recorded ones and within the same bounds. If nothing
      was stopped in the middle, all tools it asked for have run. */
  lemma OpenTurnIsBounded(c: Config, h: History, markup: nat -> nat, exhausted: set<nat>, rows: seq<ToolRow>)
    requires WellRun(c, h, markup, exhausted, rows) && h.open != []
    ensures Bounded(c, h.open, rows)
    ensures Whole(c, h, rows) ==> RowCount(rows, h.open[0].step) == ToolCount(h.open, c.maxToolCallsPerTurn)
    ensures forall i :: 0 <= i < |h.records| ==> h.records[i].index < h.open[0].step
  {
    WellRunParts(c, h, markup, exhausted, rows);
    var step, lo := h.open[0].step, RecordedTools(h.records);
    RowsOfHistory(c, h, markup, exhausted, rows, step);
    NoRowsFrom(c, h.records, h.segments, markup, exhausted, h.next, rows[..lo], step);
    forall i | 0 <= i < |rows| && rows[i].step == step
      ensures rows[i].callIndex < ToolCount(h.open, c.maxToolCallsPerTurn)
    {
      if i < lo {
        NoRows(rows[..lo], step, i);
      }
    }
    ShapeIsBounded(c, h.open, step, rows);
    RecordedRowsCount(c, h.records, h.segments, markup, exhausted, h.next, rows[..lo]);
    ToolCountJoined(Flatten(h.segments), h.open, c.maxToolCallsPerTurn);
    forall i | 0 <= i < |h.records|
      ensures h.records[i].index < step
    {
      EveryTurnRecorded(c, h.records, h.segments, markup, exhausted, h.next, i);
    }
  }

  lemma {:induction false} ToolCountJoined(a: seq<Call>, b: seq<Call>, cap: nat)
    ensures ToolCount(a + b, cap) == ToolCount(a, cap) + ToolCount(b, cap)
  {
    if b == [] {
      assert a + b == a;
    } else {
      ToolCountJoined(a, b[..|b| - 1], cap);
      assert (a + b)[..|a + b| - 1] == a + b[..|b| - 1];
    }
  }

  lemma {:induction false} RecordedRowsCount(c: Config, records: seq<StepRecord>, segments: seq<seq<Call>>, markup: nat -> nat,
                                             exhausted: set<nat>, below: nat, rows: seq<ToolRow>)
    requires TurnsRecorded(c, records, segments, markup, exhausted, below) && RowsRecorded(rows, records)
    ensures |rows| == ToolCount(Flatten(segments), c.maxToolCallsPerTurn)
  {
    if records != [] {
      var n, m := |records| - 1, |segments| - 1;
      RecordedRowsCount(c, records[..n], segments[..m], markup, exhausted, records[n].index,
                        rows[..|rows| - records[n].toolCalls]);
      RecordSums(c, markup, records[n].index, segments[m]);
      ToolCountJoined(Flatten(segments[..m]), segments[m], c.maxToolCallsPerTurn);
    }
  }

  /** The tools run in a whole run: one row for every call the replies asked for, up to the cap, but
      for some of the very last reply when the run was stopped. */
  lemma RunRowsBounded(c: Config, h: History, markup: nat -> nat, exhausted: set<nat>, rows: seq<ToolRow>)
    requires WellRun(c, h, markup, exhausted, rows)
    ensures |rows| <= ToolCount(h.trace, c.maxToolCallsPerTurn) <= |h.trace| * c.maxToolCallsPerTurn
    ensures h.open == [] ==> |rows| == ToolCount(h.trace, c.maxToolCallsPerTurn)
    ensures FirmTools(h.trace, c.maxToolCallsPerTurn) <= |rows|
  {
    WellRunParts(c, h, markup, exhausted, rows);
    var lo, cap := RecordedTools(h.records), c.maxToolCallsPerTurn;
    RecordedRowsCount(c, h.records, h.segments, markup, exhausted, h.next, rows[..lo]);
    ToolCountJoined(Flatten(h.segments), h.open, cap);
    ToolCountBound(h.trace, cap);
    if h.open != [] {
      ToolCountJoined(Flatten(h.segments), h.open[..|h.open| - 1], cap);
      assert h.trace[..|h.trace| - 1] == Flatten(h.segments) + h.open[..|h.open| - 1];
    } else {
      ToolCountStep(h.trace, cap);
    }
  }
}
