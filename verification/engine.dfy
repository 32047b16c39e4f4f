/** One turn of an agent and its tool loop (core/orchestration/engine.py), under the budget, for
    a model, tools and a clock that may do anything, and stopped at any `await`. */
module Engines {
  import opened Common
  import opened Budgets
  import opened RunStates
  import opened Turns

  datatype SideEffect = ReadOnly | Network | Write

  /** What stops a run from outside, at an `await`: the timeout around the topology, the worker's
      shutdown, a sink or the event store that fails. */
  datatype Interruption = Deadline | Shutdown | Broken

  datatype Reply = Completed(answer: Answer) | Overflow | ProviderError | Unheard(cause: Interruption)

  /** What a tool comes back with; a write tool may have written one artifact. */
  datatype ToolOutcome = ToolOutcome(content: string, isError: bool, write: Option<(string, string)>)

  /** Everything that is not decided by the engine: the n-th answer of the cancel flag, of the
      clock and of the model, what the n-th tool to run makes of its call, whether the run is
      stopped at the n-th other `await`, what `extract` finds in a text, what an agent's reply
      parses to, what is said of one that is of no use, the markup. */
  datatype World = World(
    cancelled: nat -> bool,
    late: nat -> bool,
    reply: nat -> Reply,
    tool: (nat, ToolCall) -> ToolOutcome,
    pause: nat -> Option<Interruption>,
    extract: string -> seq<(string, string)>,
    parse: string -> Option<map<string, string>>,
    note: string -> string,
    markup: nat -> nat)

  /** Why a turn ends without a result. */
  datatype Failure = Stopped(stop: Stop) | Provider | Interrupted(cause: Interruption)

  /** How often the outside was asked, and what the budget says. */
  datatype Moment = Moment(checks: nat, asked: nat, pauses: nat, used: nat, spent: nat)

  /** A failure has its reason in what was answered last, or in the budget. */
  ghost predicate Caused(c: Config, world: World, at: Moment, f: Failure) {
    match f
    case Stopped(Cancelled) => at.checks > 0 && world.cancelled(at.checks - 1)
    case Stopped(TimeLimit) => at.checks > 0 && world.late(at.checks - 1)
    case Stopped(StepLimit) => at.used >= c.maxSteps
    case Stopped(CostLimit) => at.spent >= c.maxCost
    case Provider => at.asked > 0 && (world.reply(at.asked - 1).ProviderError? || world.reply(at.asked - 1).Overflow?)
    case Interrupted(cause) =>
      || (at.pauses > 0 && world.pause(at.pauses - 1) == Some(cause))
      || (at.asked > 0 && world.reply(at.asked - 1) == Unheard(cause))
  }

  ghost predicate Explained(c: Config, world: World, at: Moment, failure: Option<Failure>) {
    failure.Some? ==> Caused(c, world, at, failure.value)
  }

  lemma ReplyExplains(c: Config, world: World, at: Moment)
    requires at.asked > 0 && Outcome(world.reply(at.asked - 1)).Err?
    ensures Caused(c, world, at, Outcome(world.reply(at.asked - 1)).error)
  {}

  /** An interruption comes from outside. */
  ghost predicate FromOutside(world: World, cause: Interruption) {
    (exists n :: world.pause(n) == Some(cause)) || (exists n :: world.reply(n) == Unheard(cause))
  }

  /** … and a request for JSON, when no reply could be used; and a topology, by itself. */
  datatype RunFailure = TurnFailed(failure: Failure) | NotJson | Misconfigured

  type Tools = map<string, SideEffect>

  predicate Mutating(calls: seq<ToolCall>, tools: Tools) {
    exists i :: 0 <= i < |calls| && calls[i].name in tools && tools[calls[i].name] == Write
  }

  function Text(content: string): Message {
    Message(User, content, [], [])
  }

  // ---- Batches of tools ---------------------------------------------------------------

  ghost predicate Tells(outcome: ToolOutcome, result: ToolResult) {
    result.content == outcome.content && result.isError == outcome.isError
  }

  /** What the model is told about a tool that does not exist. */
  function NoSuchTool(name: string): string {
    "Error: no tool named " + name
  }

  /** The result is what the called tool came back with; an unknown name is an error. */
  ghost predicate Answers(world: World, tools: Tools, call: ToolCall, result: ToolResult) {
    && result.callId == call.id && result.name == call.name
    && if call.name in tools then exists n: nat :: Tells(world.tool(n, call), result)
       else result.isError && result.content == NoSuchTool(call.name)
  }

  function RowFor(step: nat, callIndex: nat, call: ToolCall, result: ToolResult): ToolRow {
    ToolRow(step, callIndex, call.name, call.arguments, result.content, result.isError)
  }

  /** A batch of which the calls at the places in `order` have run, in that order: each has its own
      result, and the audit row that says so. */
  ghost predicate Batch(world: World, tools: Tools, calls: seq<ToolCall>, results: seq<ToolResult>, order: seq<nat>,
                        before: seq<ToolRow>, rows: seq<ToolRow>, step: nat, offset: nat)
    decreases |order|
  {
    && |results| == |calls|
    && if order == [] then rows == before
       else
         var p, earlier := order[|order| - 1], order[..|order| - 1];
         && p < |calls| && p !in earlier && Answers(world, tools, calls[p], results[p])
         && rows != [] && rows[|rows| - 1] == RowFor(step, offset + p, calls[p], results[p])
         && Batch(world, tools, calls, results, earlier, before, rows[..|rows| - 1], step, offset)
  }

  lemma {:induction false} OtherResult(world: World, tools: Tools, calls: seq<ToolCall>, results: seq<ToolResult>,
                                       order: seq<nat>, before: seq<ToolRow>, rows: seq<ToolRow>, step: nat, offset: nat,
                                       p: nat, result: ToolResult)
    requires Batch(world, tools, calls, results, order, before, rows, step, offset) && p < |calls| && p !in order
    ensures Batch(world, tools, calls, results[p := result], order, before, rows, step, offset)
    decreases |order|
  {
    if order != [] {
      assert order[|order| - 1] in order;
      OtherResult(world, tools, calls, results, order[..|order| - 1], before, rows[..|rows| - 1], step, offset, p, result);
    }
  }

  lemma BatchStep(world: World, tools: Tools, calls: seq<ToolCall>, results: seq<ToolResult>, order: seq<nat>,
                  before: seq<ToolRow>, rows: seq<ToolRow>, step: nat, offset: nat, p: nat, result: ToolResult)
    requires Batch(world, tools, calls, results, order, before, rows, step, offset) && p < |calls| && p !in order
    requires Answers(world, tools, calls[p], result)
    ensures Batch(world, tools, calls, results[p := result], order + [p], before,
                  rows + [RowFor(step, offset + p, calls[p], result)], step, offset)
  {
    OtherResult(world, tools, calls, results, order, before, rows, step, offset, p, result);
    assert (order + [p])[..|order|] == order;
    var more := rows + [RowFor(step, offset + p, calls[p], result)];
    assert more[..|rows|] == rows;
  }

  function Places(order: seq<nat>): set<nat> {
    if order == [] then {} else Places(order[..|order| - 1]) + {order[|order| - 1]}
  }

  lemma {:induction false} PlacesOfOrder(world: World, tools: Tools, calls: seq<ToolCall>, results: seq<ToolResult>,
                                         order: seq<nat>, before: seq<ToolRow>, rows: seq<ToolRow>, step: nat, offset: nat)
    requires Batch(world, tools, calls, results, order, before, rows, step, offset)
    ensures |Places(order)| == |order| && forall p :: p in Places(order) <==> p in order
    decreases |order|
  {
    if order != [] {
      var n := |order| - 1;
      PlacesOfOrder(world, tools, calls, results, order[..n], before, rows[..|rows| - 1], step, offset);
      assert forall p :: p in order <==> p in order[..n] || p == order[n];
    }
  }

  lemma {:induction false} OrderAnswered(world: World, tools: Tools, calls: seq<ToolCall>, results: seq<ToolResult>,
                                         order: seq<nat>, before: seq<ToolRow>, rows: seq<ToolRow>, step: nat, offset: nat,
                                         i: nat)
    requires Batch(world, tools, calls, results, order, before, rows, step, offset) && i < |order|
    ensures order[i] < |calls| == |results| && Answers(world, tools, calls[order[i]], results[order[i]])
    decreases |order|
  {
    if i < |order| - 1 {
      OrderAnswered(world, tools, calls, results, order[..|order| - 1], before, rows[..|rows| - 1], step, offset, i);
    }
  }

  /** Everything has run: the results answer the calls, place by place. */
  lemma BatchDone(world: World, tools: Tools, calls: seq<ToolCall>, results: seq<ToolResult>, order: seq<nat>,
                  before: seq<ToolRow>, rows: seq<ToolRow>, step: nat, offset: nat)
    requires Batch(world, tools, calls, results, order, before, rows, step, offset) && |order| == |calls|
    ensures AllAnswered(world, tools, calls, results)
  {
    PlacesOfOrder(world, tools, calls, results, order, before, rows, step, offset);
    forall p | p in order
      ensures p < |calls| && Answers(world, tools, calls[p], results[p])
    {
      var i :| 0 <= i < |order| && order[i] == p;
      OrderAnswered(world, tools, calls, results, order, before, rows, step, offset, i);
    }
    SameSize(Places(order), UpTo(|calls|));
    forall p | 0 <= p < |calls|
      ensures Answers(world, tools, calls[p], results[p])
    {
      assert p in UpTo(|calls|) && p in order;
    }
  }

  lemma SameSize(part: set<nat>, all: set<nat>)
    requires part <= all && |part| == |all|
    ensures part == all
  {
    assert all == part + (all - part);
  }

  ghost predicate AllAnswered(world: World, tools: Tools, calls: seq<ToolCall>, results: seq<ToolResult>) {
    |results| == |calls| && forall p :: 0 <= p < |calls| ==> Answers(world, tools, calls[p], results[p])
  }

  /** The row of a call is not there yet. */
  lemma {:induction false} RowIsNew(world: World, tools: Tools, calls: seq<ToolCall>, results: seq<ToolResult>,
                                    order: seq<nat>, settled: seq<ToolRow>, before: seq<ToolRow>, rows: seq<ToolRow>,
                                    step: nat, offset: nat, p: nat, i: nat)
    requires Batch(world, tools, calls, results, order, before, rows, step, offset) && p !in order && i < |rows|
    requires TurnRows(settled, before, step, offset)
    ensures rows[i].step != step || rows[i].callIndex != offset + p
    decreases |order|
  {
    if order == [] {
      if i < |settled| {
        assert rows[i] == settled[i];
      }
    } else if i < |rows| - 1 {
      RowIsNew(world, tools, calls, results, order[..|order| - 1], settled, before, rows[..|rows| - 1], step, offset, p, i);
    } else {
      assert order[|order| - 1] in order;
    }
  }

  /** The rows of a batch are new, of its step, and numbered from `offset` on. */
  lemma {:induction false} BatchRows(world: World, tools: Tools, calls: seq<ToolCall>, results: seq<ToolResult>,
                                     order: seq<nat>, settled: seq<ToolRow>, before: seq<ToolRow>, rows: seq<ToolRow>,
                                     step: nat, offset: nat)
    requires Batch(world, tools, calls, results, order, before, rows, step, offset)
    requires TurnRows(settled, before, step, offset)
    ensures |rows| == |before| + |order| && rows[..|before|] == before && RowsDistinct(rows)
    ensures forall i :: |before| <= i < |rows| ==> rows[i].step == step && rows[i].callIndex < offset + |calls|
    decreases |order|
  {
    if order != [] {
      var n, earlier := |rows| - 1, order[..|order| - 1];
      BatchRows(world, tools, calls, results, earlier, settled, before, rows[..n], step, offset);
      forall i | 0 <= i < n
        ensures rows[i].step != rows[n].step || rows[i].callIndex != rows[n].callIndex
      {
        RowIsNew(world, tools, calls, results, earlier, settled, before, rows[..n], step, offset, order[|order| - 1], i);
      }
      assert rows[..n][..|before|] == rows[..|before|];
      assert forall i :: 0 <= i < n ==> rows[i] == rows[..n][i];
    } else {
      assert rows[..|before|] == before;
    }
  }

  lemma TurnRowsGrow(settled: seq<ToolRow>, before: seq<ToolRow>, rows: seq<ToolRow>, step: nat, offset: nat, n: nat)
    requires TurnRows(settled, before, step, offset) && |rows| == |before| + n && rows[..|before|] == before
    requires RowsDistinct(rows)
    requires forall i :: |before| <= i < |rows| ==> rows[i].step == step && rows[i].callIndex < offset + n
    ensures TurnRows(settled, rows, step, offset + n)
  {
    assert rows[..|settled|] == before[..|settled|];
    forall i | |settled| <= i < |rows|
      ensures rows[i].step == step && rows[i].callIndex < offset + n
    {
      if i < |before| {
        assert rows[i] == before[i];
      }
    }
  }

  /** A batch that was stopped: the rows of the turn so far. */
  lemma BatchTorn(world: World, tools: Tools, calls: seq<ToolCall>, results: seq<ToolResult>, order: seq<nat>,
                  settled: seq<ToolRow>, before: seq<ToolRow>, rows: seq<ToolRow>, executed: nat, step: nat, offset: nat)
    requires Batch(world, tools, calls, results, order, before, rows, step, offset) && |order| <= |calls|
    requires TurnRows(settled, before, step, offset) && executed <= |settled| + offset + |calls|
    ensures TornRows(settled, rows, executed, step, offset, offset + |calls|)
  {
    BatchRows(world, tools, calls, results, order, settled, before, rows, step, offset);
    BatchIsTorn(settled, before, rows, executed, step, offset, offset + |calls|);
  }

  /** The log went on with what was found, in order. */
  ghost predicate Captured(before: seq<Artifact>, log: seq<Artifact>, found: seq<(string, string)>, step: nat) {
    if found == [] then log == before
    else
      log != [] &&
      var a, f := log[|log| - 1], found[|found| - 1];
      && a.path == f.0 && a.content == f.1 && a.step == step
      && Captured(before, log[..|log| - 1], found[..|found| - 1], step)
  }

  lemma CapturedOne(before: seq<Artifact>, log: seq<Artifact>, found: seq<(string, string)>, i: nat, step: nat, a: Artifact)
    requires i < |found| && Captured(before, log, found[..i], step)
    requires a.path == found[i].0 && a.content == found[i].1 && a.step == step
    ensures Captured(before, log + [a], found[..i + 1], step)
  {
    assert (log + [a])[..|log|] == log && found[..i + 1][..i] == found[..i];
  }

  // ---- What a turn sends --------------------------------------------------------------

  /** What a turn is to do: its prompt, the text it really opens with, its tools, and the number of
      the reply that answers its first call. */
  datatype Brief = Brief(prompt: string, opening: string, tools: Tools, first: nat)

  /** The opening is the prompt, or its compacted form when the prompt was too long. */
  function BriefFor(world: World, prompt: string, compacted: string, tools: Tools, asked: nat): Brief {
    if world.reply(asked).Overflow? then Brief(prompt, compacted, tools, asked + 1)
    else Brief(prompt, prompt, tools, asked)
  }

  /** The assistant turn that repeats an answer: its text and as many of its calls as are permitted. */
  ghost predicate Repeats(c: Config, answer: Answer, m: Message) {
    && m.role == Assistant && m.content == answer.text && m.toolResults == []
    && |m.toolCalls| == (if |answer.calls| < c.maxToolCallsPerTurn then |answer.calls| else c.maxToolCallsPerTurn)
    && forall i :: 0 <= i < |m.toolCalls| ==> m.toolCalls[i] == answer.calls[i]
  }

  /** The conversation that goes on after call `before`: the prompt, everything said since, the
      answer, and what the tools it asked for came back with. */
  ghost predicate GoesOn(c: Config, world: World, brief: Brief, before: Call, conversation: seq<Message>) {
    var n := |before.conversation|;
    && n > 0 && |conversation| == n + 2
    && conversation[0] == Message(User, brief.prompt, [], [])
    && (forall i :: 1 <= i < n ==> conversation[i] == before.conversation[i])
    && Repeats(c, before.answer, conversation[n])
    && conversation[n + 1].role == User && conversation[n + 1].content == "" && conversation[n + 1].toolCalls == []
    && AllAnswered(world, brief.tools, conversation[n].toolCalls, conversation[n + 1].toolResults)
  }

  /** Call `j` of a turn: the tools it offers, what it sends, and that its answer is the model's. */
  ghost predicate Asks(c: Config, world: World, brief: Brief, calls: seq<Call>, j: nat)
    requires j < |calls|
  {
    && calls[j].offered == (if j == c.maxToolIterations then {} else brief.tools.Keys)
    && world.reply(brief.first + j) == Completed(calls[j].answer)
    && if j == 0 then calls[0].conversation == [Message(User, brief.opening, [], [])]
       else GoesOn(c, world, brief, calls[j - 1], calls[j].conversation)
  }

  ghost predicate Scripted(c: Config, world: World, brief: Brief, calls: seq<Call>) {
    forall j :: 0 <= j < |calls| ==> Asks(c, world, brief, calls, j)
  }

  /** Before a call: what it will carry, and which reply it will get. */
  ghost predicate IsReady(c: Config, world: World, brief: Brief, compacted: string, calls: seq<Call>,
                          conversation: seq<Message>, asked: nat)
  {
    && Scripted(c, world, brief, calls)
    && if calls == [] then
         conversation == [Message(User, brief.prompt, [], [])] && brief == BriefFor(world, brief.prompt, compacted, brief.tools, asked)
       else GoesOn(c, world, brief, calls[|calls| - 1], conversation) && asked == brief.first + |calls|
  }

  /** After it: `conversation` is what it carried, but for the opening. */
  ghost predicate HasCarried(c: Config, world: World, brief: Brief, calls: seq<Call>, conversation: seq<Message>, asked: nat) {
    && Scripted(c, world, brief, calls) && calls != [] && asked == brief.first + |calls|
    && var carried := calls[|calls| - 1].conversation;
    && |conversation| == |carried| > 0 && conversation[0] == Message(User, brief.prompt, [], [])
    && forall i :: 1 <= i < |carried| ==> conversation[i] == carried[i]
  }

  /** Folded, like `Turning` and `Answered`. */
  ghost predicate Ready(c: Config, world: World, brief: Brief, compacted: string, calls: seq<Call>,
                        conversation: seq<Message>, asked: nat)
  {
    forall k: seq<Call> {:trigger Looked(k)} :: Looked(k) && k == calls ==>
      IsReady(c, world, brief, compacted, k, conversation, asked)
  }

  ghost predicate Carried(c: Config, world: World, brief: Brief, calls: seq<Call>, conversation: seq<Message>, asked: nat) {
    forall k: seq<Call> {:trigger Looked(k)} :: Looked(k) && k == calls ==>
      HasCarried(c, world, brief, k, conversation, asked)
  }

  lemma ScriptBegins(c: Config, world: World, prompt: string, compacted: string, tools: Tools, asked: nat)
    ensures Ready(c, world, BriefFor(world, prompt, compacted, tools, asked), compacted, [], [Text(prompt)], asked)
  {
    assert IsReady(c, world, BriefFor(world, prompt, compacted, tools, asked), compacted, [], [Text(prompt)], asked);
  }

  lemma ScriptSoFar(c: Config, world: World, brief: Brief, compacted: string, calls: seq<Call>, conversation: seq<Message>,
                    asked: nat)
    requires Ready(c, world, brief, compacted, calls, conversation, asked) || Carried(c, world, brief, calls, conversation, asked)
    ensures Scripted(c, world, brief, calls)
  {
    assert Looked(calls);
  }

  lemma CallCarries(c: Config, world: World, brief: Brief, compacted: string, calls: seq<Call>, conversation: seq<Message>,
                    asked: nat, call: Call, later: nat)
    requires Ready(c, world, brief, compacted, calls, conversation, asked)
    requires call.offered == if |calls| == c.maxToolIterations then {} else brief.tools.Keys
    requires var over := calls == [] && world.reply(asked).Overflow?;
             && call.conversation == (if over then [Text(compacted)] else conversation)
             && later == asked + (if over then 2 else 1) && world.reply(later - 1) == Completed(call.answer)
    ensures Carried(c, world, brief, calls + [call], conversation, later)
  {
    assert Looked(calls);
    var longer := calls + [call];
    forall j | 0 <= j < |longer|
      ensures Asks(c, world, brief, longer, j)
    {
      if j < |calls| {
        assert Asks(c, world, brief, calls, j);
        assert longer[j] == calls[j] && (j > 0 ==> longer[j - 1] == calls[j - 1]);
      } else {
        assert longer[j] == call;
      }
    }
    assert HasCarried(c, world, brief, longer, conversation, later);
  }

  lemma AnswerGoesOn(c: Config, world: World, brief: Brief, compacted: string, calls: seq<Call>, conversation: seq<Message>,
                     asked: nat, results: seq<ToolResult>)
    requires Carried(c, world, brief, calls, conversation, asked)
    requires calls != [] && AllAnswered(world, brief.tools, Requested(calls[|calls| - 1].answer, c.maxToolCallsPerTurn), results)
    ensures Ready(c, world, brief, compacted, calls, Extended(c, conversation, calls[|calls| - 1].answer, results), asked)
  {
    assert Looked(calls);
    assert IsReady(c, world, brief, compacted, calls, Extended(c, conversation, calls[|calls| - 1].answer, results), asked);
  }

  /** The log went on, with artifacts of this step. */
  ghost predicate Grown(before: seq<Artifact>, log: seq<Artifact>, step: nat) {
    && |before| <= |log| && log[..|before|] == before
    && forall i :: |before| <= i < |log| ==> log[i].step == step
  }

  lemma GrownFurther(a: seq<Artifact>, b: seq<Artifact>, c: seq<Artifact>, step: nat)
    requires Grown(a, b, step) && Grown(b, c, step)
    ensures Grown(a, c, step)
  {
    assert c[..|a|] == b[..|a|];
    forall i | |a| <= i < |c|
      ensures c[i].step == step
    {
      if i < |b| {
        assert c[i] == b[i];
      }
    }
  }

  /** What the tools of a turn wrote, and then the files found in its output. */
  ghost predicate Filed(world: World, before: seq<Artifact>, log: seq<Artifact>, output: string, step: nat) {
    exists written :: Grown(before, written, step) && Captured(written, log, world.extract(output), step)
  }

  /** Captured files are all that was found, one artifact each, in order. */
  lemma {:induction false} CapturedFiles(before: seq<Artifact>, log: seq<Artifact>, found: seq<(string, string)>, step: nat)
    requires Captured(before, log, found, step)
    ensures |log| == |before| + |found| && log[..|before|] == before
    ensures forall i :: 0 <= i < |found| ==>
              var a := log[|before| + i]; a.path == found[i].0 && a.content == found[i].1 && a.step == step
  {
    if found != [] {
      CapturedFiles(before, log[..|log| - 1], found[..|found| - 1], step);
      assert log[..|before|] == log[..|log| - 1][..|before|];
    } else {
      assert log[..|before|] == before;
    }
  }

  lemma CapturedGrows(before: seq<Artifact>, log: seq<Artifact>, found: seq<(string, string)>, step: nat)
    requires Captured(before, log, found, step)
    ensures Grown(before, log, step)
  {
    CapturedFiles(before, log, found, step);
    forall i | |before| <= i < |log|
      ensures log[i].step == step
    {
      assert log[|before| + (i - |before|)].step == step;
    }
  }

  /** What a call comes to: a prompt that is too long is an error of the provider like others. */
  function Outcome(reply: Reply): Result<Answer, Failure> {
    match reply
    case Completed(answer) => Ok(answer)
    case Unheard(cause) => Err(Interrupted(cause))
    case _ => Err(Provider)
  }

  class Engine {
    const c: Config
    const world: World
    const budget: BudgetGuard
    const state: RunState

    /** What the step sink and the tool sink were given. */
    var records: seq<StepRecord>
    var toolRows: seq<ToolRow>
    var warnings: nat

    /** How often the outside was asked. */
    var checks: nat
    var asked: nat
    var pauses: nat
    var executed: nat

    /** The run so far. */
    ghost var h: History

    ghost predicate Limited() {
      budget.maxSteps == c.maxSteps && budget.maxCost == c.maxCost
    }

    ghost predicate Valid()
      reads this, budget, state
    {
      && Limited() && Booked(c, h.trace, budget.stepsUsed, budget.spent)
      && WellRun(c, h, world.markup, state.exhausted, toolRows) && h.next <= state.stepIndex + 1
      && state.Valid() && executed <= ToolCount(h.trace, c.maxToolCallsPerTurn)
      && records == h.records && warnings == (if budget.warned then 1 else 0)
    }

    constructor (c: Config, world: World)
      ensures Valid() && fresh(budget) && fresh(state) && this.c == c && this.world == world
      ensures h == History([], [], [], [], 1) && toolRows == [] && state.log == []
    {
      this.c, this.world := c, world;
      budget := new BudgetGuard(c.maxSteps, c.maxCost);
      state := new RunState();
      h, records, toolRows := History([], [], [], [], 1), [], [];
      warnings, checks, asked, pauses, executed := 0, 0, 0, 0, 0;
    }

    function Now(): Moment
      reads this, budget
    {
      Moment(checks, asked, pauses, budget.stepsUsed, budget.spent)
    }

    /** An `await` at which the run may be stopped. */
    method Pause() returns (failure: Option<Failure>)
      modifies this`pauses
      ensures Explained(c, world, Now(), failure) && (failure.Some? ==> failure.value.Interrupted?)
      ensures failure.Some? <==> world.pause(old(pauses)).Some?
    {
      var cause := world.pause(pauses);
      pauses := pauses + 1;
      failure := if cause.Some? then Some(Interrupted(cause.value)) else None;
    }

    /** `_complete`: one retry on a compacted prompt, for the opening call only. */
    method Complete(conversation: seq<Message>, compacted: string, first: bool)
      returns (r: Result<Answer, Failure>, sent: seq<Message>)
      modifies this`asked
      ensures var retried := first && world.reply(old(asked)).Overflow?;
              && asked == old(asked) + (if retried then 2 else 1)
              && sent == (if retried then [Text(compacted)] else conversation)
              && r == Outcome(world.reply(asked - 1))
    {
      sent := conversation;
      var reply := world.reply(asked);
      asked := asked + 1;
      if reply.Overflow? && first {
        sent := [Text(compacted)];
        reply := world.reply(asked);
        asked := asked + 1;
      }
      r := Outcome(reply);
    }

    /** What a call comes back with: unknown names are answered with an error, only write tools touch
        the store. */
    method Invoke(call: ToolCall, tools: Tools, step: nat) returns (answer: ToolResult)
      requires state.Valid()
      modifies this`executed, state`artifacts, state`versions, state`log
      ensures state.Valid() && Answers(world, tools, call, answer)
      ensures executed == old(executed) + if call.name in tools then 1 else 0
      ensures call.name in tools ==> Tells(world.tool(old(executed), call), answer)
      ensures state.log == Written(old(state.log), call, tools, old(executed), step)
    {
      if call.name in tools {
        var outcome := world.tool(executed, call);
        executed := executed + 1;
        if tools[call.name] == Write && outcome.write.Some? {
          var version := state.RecordArtifact(outcome.write.value.0, outcome.write.value.1, step);
        }
        answer := ToolResult(call.id, call.name, outcome.content, outcome.isError);
        assert Tells(world.tool(old(executed), call), answer);
      } else {
        answer := ToolResult(call.id, call.name, NoSuchTool(call.name), true);
      }
    }

    /** One tool and its audit row. It may be stopped before it begins, or when it has run, and has
        perhaps written, before its row. */
    method Execute(position: nat, call: ToolCall, tools: Tools, step: nat, offset: nat)
      returns (result: Result<ToolResult, Failure>)
      requires state.Valid()
      modifies this`toolRows, this`executed, this`pauses, state`artifacts, state`versions, state`log
      ensures state.Valid() && (result.Ok? ==> Answers(world, tools, call, result.value))
      ensures toolRows == old(toolRows) +
                if result.Err? then []
                else [ToolRow(step, offset + position, call.name, call.arguments, result.value.content, result.value.isError)]
      ensures executed == old(executed) + (if call.name in tools then 1 else 0) || (result.Err? && executed == old(executed))
      ensures result.Ok? && call.name in tools ==>
                executed == old(executed) + 1 && Tells(world.tool(old(executed), call), result.value)
      ensures state.log == if executed == old(executed) then old(state.log)
                           else Written(old(state.log), call, tools, old(executed), step)
      ensures result.Err? ==> result.error.Interrupted? && Caused(c, world, Now(), result.error)
    {
      var stop := Pause();
      if stop.Some? {
        return Err(stop.value);
      }
      var answer := Invoke(call, tools, step);
      stop := Pause();
      if stop.Some? {
        return Err(stop.value);
      }
      toolRows := toolRows + [RowFor(step, offset + position, call, answer)];
      result := Ok(answer);
    }

    /** The log after the n-th tool to run. */
    ghost function Written(log: seq<Artifact>, call: ToolCall, tools: Tools, n: nat, step: nat): seq<Artifact> {
      if call.name in tools && tools[call.name] == Write && world.tool(n, call).write.Some? then
        var (path, content) := world.tool(n, call).write.value;
        log + [Artifact(path, Writes(log, path) + 1, content, step)]
      else log
    }

    lemma WrittenGrows(log: seq<Artifact>, call: ToolCall, tools: Tools, n: nat, step: nat)
      ensures Grown(log, Written(log, call, tools, n, step), step) && Grown(log, log, step)
    {}

    lemma ReadersDoNotWrite(log: seq<Artifact>, calls: seq<ToolCall>, p: nat, tools: Tools, n: nat, step: nat)
      requires p < |calls| && !Mutating(calls, tools)
      ensures Written(log, calls[p], tools, n, step) == log
    {}

    /** One more tool of a batch, if it is not stopped. */
    method ExecuteOne(calls: seq<ToolCall>, tools: Tools, step: nat, offset: nat, results: seq<ToolResult>, position: nat,
                      ghost before: seq<ToolRow>, ghost order: seq<nat>)
      returns (stop: Option<Failure>, more: seq<ToolResult>, ghost longer: seq<nat>)
      requires state.Valid() && Batch(world, tools, calls, results, order, before, toolRows, step, offset)
      requires position < |calls| && position !in order
      modifies this`toolRows, this`executed, this`pauses, state`artifacts, state`versions, state`log
      ensures state.Valid() && Batch(world, tools, calls, more, longer, before, toolRows, step, offset)
      ensures longer == if stop.None? then order + [position] else order
      ensures executed <= old(executed) + 1
      ensures !Mutating(calls, tools) ==> state.log == old(state.log)
      ensures StoppedOnly(stop) && Grown(old(state.log), state.log, step)
    {
      ghost var rows := toolRows;
      var result := Execute(position, calls[position], tools, step, offset);
      WrittenGrows(old(state.log), calls[position], tools, old(executed), step);
      if !Mutating(calls, tools) {
        ReadersDoNotWrite(old(state.log), calls, position, tools, old(executed), step);
      }
      if result.Ok? {
        BatchStep(world, tools, calls, results, order, before, rows, step, offset, position, result.value);
        stop, more, longer := None, results[position := result.value], order + [position];
      } else {
        assert toolRows == rows;
        stop, more, longer := Some(result.error), results, order;
      }
    }

    /** Only an interruption stops a batch. */
    ghost predicate StoppedOnly(stop: Option<Failure>)
      reads this, budget
    {
      stop.Some? ==> stop.value.Interrupted? && Caused(c, world, Now(), stop.value)
    }

    /** A batch that may write runs in the order of the request. */
    method RunInOrder(calls: seq<ToolCall>, tools: Tools, step: nat, offset: nat)
      returns (stop: Option<Failure>, results: seq<ToolResult>, ghost order: seq<nat>)
      requires state.Valid()
      modifies this`toolRows, this`executed, this`pauses, state`artifacts, state`versions, state`log
      ensures state.Valid() && executed <= old(executed) + |calls| && StoppedOnly(stop) && Grown(old(state.log), state.log, step)
      ensures Batch(world, tools, calls, results, order, old(toolRows), toolRows, step, offset)
      ensures |order| <= |calls| && forall i :: 0 <= i < |order| ==> order[i] == i
      ensures stop.None? ==> |order| == |calls|
    {
      results := seq(|calls|, _ => ToolResult("", "", "", false));
      order, stop := [], None;
      for position := 0 to |calls|
        invariant state.Valid() && executed <= old(executed) + position && Grown(old(state.log), state.log, step)
        invariant Batch(world, tools, calls, results, order, old(toolRows), toolRows, step, offset)
        invariant |order| == position && forall i :: 0 <= i < |order| ==> order[i] == i
        invariant stop.None?
      {
        ghost var log := state.log;
        stop, results, order := ExecuteOne(calls, tools, step, offset, results, position, old(toolRows), order);
        GrownFurther(old(state.log), log, state.log, step);
        if stop.Some? {
          return;
        }
      }
    }

    /** Other tools run concurrently and finish in any order. When they are stopped any of those
        that have no row yet may have begun. */
    method RunConcurrently(calls: seq<ToolCall>, tools: Tools, step: nat, offset: nat)
      returns (stop: Option<Failure>, results: seq<ToolResult>, ghost order: seq<nat>)
      requires state.Valid() && !Mutating(calls, tools)
      modifies this`toolRows, this`executed, this`pauses, state`artifacts, state`versions, state`log
      ensures state.Valid() && executed <= old(executed) + |calls| && StoppedOnly(stop) && state.log == old(state.log)
      ensures Batch(world, tools, calls, results, order, old(toolRows), toolRows, step, offset)
      ensures |order| <= |calls| && (stop.None? ==> |order| == |calls|)
    {
      results := seq(|calls|, _ => ToolResult("", "", "", false));
      order, stop := [], None;
      var remaining := UpTo(|calls|);
      while remaining != {} && stop.None?
        invariant state.Valid() && state.log == old(state.log) && StoppedOnly(stop)
        invariant executed + |remaining| <= old(executed) + |calls|
        invariant Batch(world, tools, calls, results, order, old(toolRows), toolRows, step, offset)
        invariant |order| + |remaining| <= |calls| && (stop.None? ==> |order| + |remaining| == |calls|)
        invariant remaining <= UpTo(|calls|) && forall p :: p in remaining ==> p !in order
        decreases |remaining|
      {
        var position :| position in remaining;
        remaining := remaining - {position};
        stop, results, order := ExecuteOne(calls, tools, step, offset, results, position, old(toolRows), order);
      }
      if stop.Some? {
        var begun: nat :| begun <= |remaining|;
        executed := executed + begun;
      }
    }

    /** `_run_tools`: each call gets its own result, in request order whatever the order of
        execution; a batch that may write runs in that order as well. When the batch is stopped,
        what has its row by then is as in a batch that is not. */
    method RunTools(calls: seq<ToolCall>, tools: Tools, step: nat, offset: nat, ghost settled: seq<ToolRow>)
      returns (stop: Option<Failure>, results: seq<ToolResult>, ghost order: seq<nat>)
      requires state.Valid() && Audited(settled, toolRows, executed, step, offset)
      modifies this`toolRows, this`executed, this`pauses, state`artifacts, state`versions, state`log
      ensures state.Valid() && StoppedOnly(stop) && Grown(old(state.log), state.log, step)
      ensures if stop.None? then
                Audited(settled, toolRows, executed, step, offset + |calls|) && AllAnswered(world, tools, calls, results)
              else TornRows(settled, toolRows, executed, step, offset, offset + |calls|)
      ensures Batch(world, tools, calls, results, order, old(toolRows), toolRows, step, offset)
      ensures |order| <= |calls| && (stop.None? ==> |order| == |calls|)
      ensures if Mutating(calls, tools) then forall i :: 0 <= i < |order| ==> order[i] == i
              else state.log == old(state.log) && state.artifacts == old(state.artifacts) && state.versions == old(state.versions)
    {
      if Mutating(calls, tools) {
        stop, results, order := RunInOrder(calls, tools, step, offset);
      } else {
        stop, results, order := RunConcurrently(calls, tools, step, offset);
      }
      BatchRows(world, tools, calls, results, order, settled, old(toolRows), toolRows, step, offset);
      if stop.Some? {
        BatchTorn(world, tools, calls, results, order, settled, old(toolRows), toolRows, executed, step, offset);
      } else {
        BatchDone(world, tools, calls, results, order, old(toolRows), toolRows, step, offset);
        TurnRowsGrow(settled, old(toolRows), toolRows, step, offset, |calls|);
      }
    }

    // ---- The turn -----------------------------------------------------------------------

    /** The guards, if the question whether the run was cancelled is answered. */
    method Check(ghost trace: seq<Call>) returns (failure: Option<Failure>)
      requires Limited() && Booked(c, trace, budget.stepsUsed, budget.spent)
      modifies this`checks, this`pauses
      ensures failure.None? ==> MayCall(c, trace) && !world.cancelled(old(checks)) && !world.late(old(checks))
      ensures Explained(c, world, Now(), failure)
    {
      failure := Pause();
      if failure.None? {
        var stop := budget.CheckBeforeStep(world.cancelled(checks), world.late(checks));
        checks := checks + 1;
        failure := if stop.Some? then Some(Stopped(stop.value)) else None;
      }
    }

    /** One model call of a turn, after the guards: the tools are withdrawn on the last permitted
        call; what it cost is booked. `past` is the run before the turn. */
    method Ask(index: nat, conversation: seq<Message>, compacted: string, tools: Tools, totals: StepRecord,
               ghost past: seq<Call>, ghost before: seq<Call>, ghost brief: Brief)
      returns (answer: Result<Answer, Failure>, t: StepRecord, ghost calls: seq<Call>)
      requires Limited() && Booked(c, past + before, budget.stepsUsed, budget.spent) && MayCall(c, past + before)
      requires Turning(c, world.markup, index, before, conversation, totals) && totals.modelCalls <= c.maxToolIterations
      requires Ready(c, world, brief, compacted, before, conversation, asked) && brief.tools == tools
      modifies this`asked, budget`stepsUsed, budget`spent
      ensures Booked(c, past + calls, budget.stepsUsed, budget.spent) && t.modelCalls == |calls|
      ensures answer.Err? ==> calls == before && t == totals && asked > 0 && answer == Outcome(world.reply(asked - 1))
      ensures answer.Ok? ==>
                && Turns.Answered(c, world.markup, index, calls, conversation, t) && calls != []
                && calls[|calls| - 1].answer == answer.value && calls[..|calls| - 1] == before
                && t.toolCalls == totals.toolCalls + |Requested(answer.value, c.maxToolCallsPerTurn)|
                && Carried(c, world, brief, calls, conversation, asked)
    {
      t, calls := totals, before;
      TurnSoFar(c, world.markup, index, before, conversation, totals);
      var offered := if totals.modelCalls == c.maxToolIterations then {} else tools.Keys;
      var sent;
      answer, sent := Complete(conversation, compacted, totals.modelCalls == 0);
      if answer.Ok? {
        ghost var call := Call(index, sent, offered, answer.value);
        CallMade(c, world, index, past, before, conversation, totals, brief, compacted, old(asked), call, asked);
        calls := before + [call];
        budget.Record(answer.value.cost);
        t := AddUp(c, world.markup, totals, answer.value);
      }
    }

    /** Carries out what an answer asked for and extends the conversation. */
    method Respond(index: nat, answer: Answer, conversation: seq<Message>, tools: Tools, totals: StepRecord, offset: nat,
                   ghost calls: seq<Call>, ghost settled: seq<ToolRow>, ghost brief: Brief, ghost compacted: string)
      returns (stop: Option<Failure>, longer: seq<Message>)
      requires Carried(c, world, brief, calls, conversation, asked) && brief.tools == tools
      requires Turns.Answered(c, world.markup, index, calls, conversation, totals)
      requires answer.calls != [] && calls != [] && calls[|calls| - 1].answer == answer
      requires totals.toolCalls == offset + |Requested(answer, c.maxToolCallsPerTurn)|
      requires state.Valid() && Audited(settled, toolRows, executed, index, offset)
      modifies this`toolRows, this`executed, this`pauses, state`artifacts, state`versions, state`log
      ensures state.Valid() && StoppedOnly(stop) && Grown(old(state.log), state.log, index)
      ensures if stop.Some? then Torn(c, settled, toolRows, executed, calls, index, false)
              else
                && Ready(c, world, brief, compacted, calls, longer, asked)
                && Audited(settled, toolRows, executed, index, totals.toolCalls)
                && Turning(c, world.markup, index, calls, longer, totals)
    {
      var results;
      ghost var order;
      stop, results, order := RunTools(Requested(answer, c.maxToolCallsPerTurn), tools, index, offset, settled);
      longer := conversation;
      if stop.Some? {
        CutInBatch(c, world.markup, index, calls, conversation, totals, settled, toolRows, executed, offset);
      } else {
        AnsweredMatches(world, tools, Requested(answer, c.maxToolCallsPerTurn), results);
        RespondedStep(c, world.markup, index, calls, conversation, totals, results);
        AnswerGoesOn(c, world, brief, compacted, calls, conversation, asked, results);
        longer := Extended(c, conversation, answer, results);
      }
    }

    /** The guards before a pass of the loop: the caller has checked them before the first call,
        every other pass checks them itself. */
    method Permit(again: bool, ghost trace: seq<Call>) returns (failure: Option<Failure>)
      requires Limited() && Booked(c, trace, budget.stepsUsed, budget.spent) && (!again ==> MayCall(c, trace))
      modifies this`checks, this`pauses
      ensures failure.None? ==> MayCall(c, trace)
      ensures Explained(c, world, Now(), failure)
    {
      failure := None;
      if again {
        failure := Check(trace);
      }
    }

    /** One pass of the loop of `call_agent`. */
    method Round(index: nat, conversation: seq<Message>, compacted: string, tools: Tools, totals: StepRecord,
                 ghost past: seq<Call>, ghost before: seq<Call>, ghost settled: seq<ToolRow>, ghost brief: Brief)
      returns (failure: Option<Failure>, answered: bool, t: StepRecord, longer: seq<Message>, ghost calls: seq<Call>)
      requires Limited() && Booked(c, past + before, budget.stepsUsed, budget.spent) && state.Valid()
      requires Audited(settled, toolRows, executed, index, totals.toolCalls)
      requires Turning(c, world.markup, index, before, conversation, totals)
      requires totals.modelCalls == |before| <= c.maxToolIterations
      requires totals.modelCalls == 0 ==> MayCall(c, past + before)
      requires Ready(c, world, brief, compacted, before, conversation, asked) && brief.tools == tools
      modifies this`asked, this`checks, this`toolRows, this`executed, this`pauses
      modifies budget`stepsUsed, budget`spent, state`artifacts, state`versions, state`log
      ensures Booked(c, past + calls, budget.stepsUsed, budget.spent) && state.Valid() && t.modelCalls == |calls|
      ensures Scripted(c, world, brief, calls) && Grown(old(state.log), state.log, index)
      ensures failure.Some? ==> Left(c, world, Now(), failure.value, settled, toolRows, executed, calls, index)
      ensures failure.None? ==>
                && Audited(settled, toolRows, executed, index, t.toolCalls)
                && Turns.Answered(c, world.markup, index, calls, conversation, t) && |calls| == |before| + 1
                && (answered <==> calls[|calls| - 1].answer.calls == [])
                && (!answered ==> Turning(c, world.markup, index, calls, longer, t) &&
                                  Ready(c, world, brief, compacted, calls, longer, asked))
    {
      answered, t, longer, calls := true, totals, conversation, before;
      ScriptSoFar(c, world, brief, compacted, before, conversation, asked);
      failure := Permit(totals.modelCalls > 0, past + before);
      if failure.Some? {
        CutBetween(c, world.markup, index, before, conversation, totals, settled, toolRows, executed,
                   !failure.value.Interrupted?);
        return;
      }
      var answer;
      answer, t, calls := Ask(index, conversation, compacted, tools, totals, past, before, brief);
      if answer.Ok? {
        ScriptSoFar(c, world, brief, compacted, calls, conversation, asked);
      }
      if answer.Err? {
        failure := Some(answer.error);
        ReplyExplains(c, world, Now());
        CutBetween(c, world.markup, index, before, conversation, totals, settled, toolRows, executed,
                   !failure.value.Interrupted?);
      } else if answer.value.calls != [] {
        answered := false;
        failure, longer := Respond(index, answer.value, conversation, tools, t, totals.toolCalls, calls, settled,
                                   brief, compacted);
      }
    }

    /** The loop of `call_agent`; `answered` when a reply came without tool calls. When it fails
        without being interrupted, every call it made asked for tools, and all of them were run. */
    method ToolLoop(index: nat, prompt: string, compacted: string, tools: Tools, ghost past: seq<Call>,
                    ghost settled: seq<ToolRow>)
      returns (failure: Option<Failure>, totals: StepRecord, answered: bool, ghost calls: seq<Call>)
      requires Limited() && Booked(c, past, budget.stepsUsed, budget.spent) && MayCall(c, past) && state.Valid()
      requires Audited(settled, toolRows, executed, index, 0)
      modifies this`asked, this`checks, this`toolRows, this`executed, this`pauses
      modifies budget`stepsUsed, budget`spent, state`artifacts, state`versions, state`log
      ensures Booked(c, past + calls, budget.stepsUsed, budget.spent) && state.Valid()
      ensures Scripted(c, world, BriefFor(world, prompt, compacted, tools, old(asked)), calls)
      ensures Grown(old(state.log), state.log, index)
      ensures failure.None? ==>
                && Recorded(c, totals, calls, world.markup) && totals.index == index
                && Audited(settled, toolRows, executed, index, totals.toolCalls)
                && (answered <==> !AlwaysTools(calls))
      ensures failure.Some? ==> Left(c, world, Now(), failure.value, settled, toolRows, executed, calls, index)
    {
      failure, answered, totals, calls := None, false, StepRecord(index, "", 0, 0, 0, 0), [];
      var conversation := [Text(prompt)];
      ghost var sent, brief := conversation, BriefFor(world, prompt, compacted, tools, asked);
      TurnBegins(c, world.markup, index, Text(prompt));
      ScriptBegins(c, world, prompt, compacted, tools, asked);
      assert past + [] == past;
      while totals.modelCalls <= c.maxToolIterations && !answered
        invariant Booked(c, past + calls, budget.stepsUsed, budget.spent) && state.Valid()
        invariant Audited(settled, toolRows, executed, index, totals.toolCalls) && failure.None?
        invariant totals.modelCalls == |calls| && Scripted(c, world, brief, calls) && Grown(old(state.log), state.log, index)
        invariant !answered ==> Ready(c, world, brief, compacted, calls, conversation, asked)
        invariant !answered ==> Turning(c, world.markup, index, calls, conversation, totals)
        invariant if calls == [] then MayCall(c, past + calls) && !answered
                  else Turns.Answered(c, world.markup, index, calls, sent, totals) &&
                       (answered <==> calls[|calls| - 1].answer.calls == [])
        decreases c.maxToolIterations + 1 - |calls|, !answered
      {
        sent := conversation;
        ghost var log := state.log;
        failure, answered, totals, conversation, calls :=
          Round(index, conversation, compacted, tools, totals, past, calls, settled, brief);
        GrownFurther(old(state.log), log, state.log, index);
        if failure.Some? {
          return;
        }
      }
      TurnEnds(c, world.markup, index, calls, sent, totals);
    }

    /** `_capture_artifacts`: every labelled file of an output becomes a new version; when it is
        stopped, those up to some place have. */
    method CaptureArtifacts(output: string, step: nat) returns (failure: Option<Failure>)
      requires state.Valid()
      modifies this`pauses, state`artifacts, state`versions, state`log
      ensures state.Valid() && StoppedOnly(failure)
      ensures failure.None? ==> Captured(old(state.log), state.log, world.extract(output), step)
      ensures exists n: nat :: n <= |world.extract(output)| &&
                               Captured(old(state.log), state.log, world.extract(output)[..n], step)
      ensures Grown(old(state.log), state.log, step)
    {
      failure := None;
      var found := world.extract(output);
      assert found[..|found|] == found;
      for i := 0 to |found|
        invariant state.Valid() && Captured(old(state.log), state.log, found[..i], step) && Grown(old(state.log), state.log, step)
        invariant failure.None?
      {
        ghost var log := state.log;
        var version := state.RecordArtifact(found[i].0, found[i].1, step);
        CapturedOne(old(state.log), log, found, i, step, state.log[|log|]);
        CapturedGrows(old(state.log), state.log, found[..i + 1], step);
        failure := Pause();
        if failure.Some? {
          return;
        }
      }
    }

    /** `call_agent`: one turn. A turn that fails leaves its calls open and nothing recorded, unless
        it is interrupted after the record was made. */
    method CallAgent(prompt: string, compacted: string, jsonMode: bool, agentTools: Tools) returns (r: Result<string, Failure>)
      requires Valid() && h.open == []
      modifies this, budget, state
      ensures Valid() && old(state.stepIndex) <= state.stepIndex <= old(state.stepIndex) + 1
      ensures r.Ok? ==> state.stepIndex == old(state.stepIndex) + 1
      ensures Took(c, world, Now(), BriefFor(world, prompt, compacted, if jsonMode then map[] else agentTools, old(asked)),
                   old(h), h, old(state.log), state.log, old(state.board), state.board, toolRows, state.stepIndex, r)
    {
      var failure := Check(h.trace);
      if failure.Some? {
        NotBegun(c, world, Now(), BriefFor(world, prompt, compacted, if jsonMode then map[] else agentTools, asked), h,
                 state.exhausted, state.log, state.board, toolRows, state.stepIndex, failure.value);
        return Err(failure.value);
      }
      state.stepIndex := state.stepIndex + 1;
      failure := Pause();
      if failure.Some? {
        NotBegun(c, world, Now(), BriefFor(world, prompt, compacted, if jsonMode then map[] else agentTools, asked), h,
                 state.exhausted, state.log, state.board, toolRows, state.stepIndex, failure.value);
        return Err(failure.value);
      }
      r := RunTurn(state.stepIndex, prompt, compacted, if jsonMode then map[] else agentTools,
                   BriefFor(world, prompt, compacted, if jsonMode then map[] else agentTools, asked));
    }

    /** A turn past its first guards. */
    method RunTurn(index: nat, prompt: string, compacted: string, tools: Tools, ghost brief: Brief)
      returns (r: Result<string, Failure>)
      requires Valid() && h.open == [] && MayCall(c, h.trace)
      requires h.next <= index == state.stepIndex && brief == BriefFor(world, prompt, compacted, tools, asked)
      modifies this, budget, state
      ensures Valid() && state.stepIndex == index
      ensures Took(c, world, Now(), brief, old(h), h, old(state.log), state.log, old(state.board), state.board, toolRows, index, r)
    {
      var failure, totals, noted;
      ghost var after, log, board;
      log, board := state.log, state.board;
      failure, totals, noted, after := PlayTurn(index, prompt, compacted, tools, brief);
      r := Settle(index, failure, totals, noted, after, brief, log, board);
    }

    /** A finished turn has its record, and may be stopped then; the calls of a failed one stay
        open. */
    method Settle(index: nat, failure: Option<Failure>, totals: StepRecord, noted: set<nat>, ghost after: History,
                  ghost brief: Brief, ghost log: seq<Artifact>, ghost board: seq<string>)
      returns (r: Result<string, Failure>)
      requires Limited() && Booked(c, after.trace, budget.stepsUsed, budget.spent)
      requires WellRun(c, after, world.markup, noted, toolRows) && after.next <= state.stepIndex + 1
      requires state.Valid() && executed <= ToolCount(after.trace, c.maxToolCallsPerTurn)
      requires warnings == (if budget.warned then 1 else 0)
      requires after.records == if failure.Some? then records else records + [totals]
      requires Took(c, world, Now(), brief, h, after, log, state.log, board, state.board, toolRows, index,
                    ResultOf(failure, totals))
      modifies this`h, this`records, this`pauses, this`warnings, budget`warned, state`exhausted
      ensures Valid() && h == after
      ensures Took(c, world, Now(), brief, old(h), after, log, state.log, board, state.board, toolRows, index, r)
    {
      ghost var before, was := h, Now();
      var stop := Book(failure.Some?, totals, noted, after);
      StoppedLate(c, world, was, Now(), brief, before, after, log, state.log, board, state.board, toolRows, index,
                  ResultOf(failure, totals), stop);
      r := if stop.Some? then Err(stop.value) else ResultOf(failure, totals);
    }

    /** What is noted of a turn. */
    method Book(failed: bool, totals: StepRecord, noted: set<nat>, ghost after: History) returns (stop: Option<Failure>)
      requires Limited() && Booked(c, after.trace, budget.stepsUsed, budget.spent)
      requires WellRun(c, after, world.markup, noted, toolRows) && after.next <= state.stepIndex + 1
      requires state.Valid() && executed <= ToolCount(after.trace, c.maxToolCallsPerTurn)
      requires warnings == (if budget.warned then 1 else 0)
      requires after.records == if failed then records else records + [totals]
      modifies this`h, this`records, this`pauses, this`warnings, budget`warned, state`exhausted
      ensures Valid() && h == after && StoppedOnly(stop)
      ensures failed ==> stop.None? && Now() == old(Now())
    {
      h := after;
      state.exhausted := noted;
      stop := None;
      if !failed {
        records := records + [totals];
        stop := Close();
      }
    }

    /** The end of a recorded turn: the budget may warn, once. */
    method Close() returns (stop: Option<Failure>)
      requires warnings == (if budget.warned then 1 else 0)
      modifies this`pauses, this`warnings, budget`warned
      ensures warnings == (if budget.warned then 1 else 0)
      ensures StoppedOnly(stop)
    {
      stop := Pause();
      if stop.None? {
        var fire := budget.TakeWarning();
        if fire {
          warnings := warnings + 1;
          stop := Pause();
        }
      }
    }

    /** A turn up to its record, and what the run looks like after it: `after` has the record, or
        the calls of the failed turn as open; `noted` are the turns then noted as exhausted. */
    method PlayTurn(index: nat, prompt: string, compacted: string, tools: Tools, ghost brief: Brief)
      returns (failure: Option<Failure>, totals: StepRecord, noted: set<nat>, ghost after: History)
      requires Limited() && Booked(c, h.trace, budget.stepsUsed, budget.spent) && MayCall(c, h.trace) && state.Valid()
      requires executed <= ToolCount(h.trace, c.maxToolCallsPerTurn)
      requires WellRun(c, h, world.markup, state.exhausted, toolRows) && h.open == [] && h.next <= index
      requires records == h.records && brief == BriefFor(world, prompt, compacted, tools, asked)
      modifies this`asked, this`checks, this`toolRows, this`executed, this`pauses
      modifies budget`stepsUsed, budget`spent, state`board, state`artifacts, state`versions, state`log
      ensures Booked(c, after.trace, budget.stepsUsed, budget.spent) && state.Valid() && after.next <= index + 1
      ensures executed <= ToolCount(after.trace, c.maxToolCallsPerTurn)
      ensures WellRun(c, after, world.markup, noted, toolRows)
      ensures after.records == if failure.Some? then records else records + [totals]
      ensures Took(c, world, Now(), brief, h, after, old(state.log), state.log, old(state.board), state.board, toolRows, index,
                   ResultOf(failure, totals))
    {
      ghost var calls;
      NoneRunYet(c, h, world.markup, state.exhausted, toolRows, index);
      failure, totals, noted, calls := Play(index, prompt, compacted, tools, h.trace, toolRows);
      assert (h.trace + calls)[|h.trace|..] == calls;
      after := TurnSettled(c, h, world.markup, state.exhausted, calls, failure.Some?, Orderly(failure), totals, index, noted,
                           old(toolRows), toolRows, executed);
      assert IsTook(c, world, Now(), brief, h, after, old(state.log), state.log, old(state.board), state.board, toolRows, index,
                    ResultOf(failure, totals));
    }

    /** The loop of a turn and what follows it up to the record. */
    method Play(index: nat, prompt: string, compacted: string, tools: Tools, ghost past: seq<Call>, ghost settled: seq<ToolRow>)
      returns (failure: Option<Failure>, totals: StepRecord, noted: set<nat>, ghost calls: seq<Call>)
      requires Limited() && Booked(c, past, budget.stepsUsed, budget.spent) && MayCall(c, past) && state.Valid()
      requires Audited(settled, toolRows, executed, index, 0)
      modifies this`asked, this`checks, this`toolRows, this`executed, this`pauses
      modifies budget`stepsUsed, budget`spent, state`board, state`artifacts, state`versions, state`log
      ensures Booked(c, past + calls, budget.stepsUsed, budget.spent) && state.Valid()
      ensures Leaves(c, world.markup, calls, failure.Some?, Orderly(failure), totals, index, state.exhausted, noted,
                     settled, toolRows, executed)
      ensures if failure.Some? then Caused(c, world, Now(), failure.value) && Said(old(state.board), state.board, failure.value)
              else state.board == old(state.board) + [totals.output]
      ensures Scripted(c, world, BriefFor(world, prompt, compacted, tools, old(asked)), calls)
      ensures Grown(old(state.log), state.log, index)
      ensures failure.None? ==> Filed(world, old(state.log), state.log, totals.output, index)
    {
      var answered;
      failure, totals, answered, calls := ToolLoop(index, prompt, compacted, tools, past, settled);
      noted := state.exhausted;
      if failure.None? {
        ghost var written := state.log;
        failure, noted := Conclude(index, totals, answered, calls, settled);
        GrownFurther(old(state.log), written, state.log, index);
      }
    }

    /** The turn after its loop, up to its record: the note when every reply asked for tools, then
        the output. */
    method Conclude(index: nat, totals: StepRecord, answered: bool, ghost calls: seq<Call>, ghost settled: seq<ToolRow>)
      returns (failure: Option<Failure>, noted: set<nat>)
      requires Recorded(c, totals, calls, world.markup) && totals.index == index && (answered <==> !AlwaysTools(calls))
      requires Audited(settled, toolRows, executed, index, totals.toolCalls) && state.Valid()
      modifies this`pauses, state`board, state`artifacts, state`versions, state`log
      ensures state.Valid() && StoppedOnly(failure)
      ensures Leaves(c, world.markup, calls, failure.Some?, Orderly(failure), totals, index, state.exhausted, noted,
                     settled, toolRows, executed)
      ensures if failure.Some? then Said(old(state.board), state.board, failure.value)
              else state.board == old(state.board) + [totals.output]
      ensures failure.None? ==> Captured(old(state.log), state.log, world.extract(totals.output), index)
      ensures Grown(old(state.log), state.log, index)
    {
      noted := if answered then state.exhausted else state.exhausted + {index};
      CutAfter(c, world.markup, index, calls, totals, settled, toolRows, executed);
      failure := Publish(totals.output, index);
    }

    /** The output goes on the board, its files into the store; the record is made if nothing stops
        it before. */
    method Publish(output: string, index: nat) returns (failure: Option<Failure>)
      requires state.Valid()
      modifies this`pauses, state`board, state`artifacts, state`versions, state`log
      ensures state.Valid() && StoppedOnly(failure)
      ensures if failure.Some? then Said(old(state.board), state.board, failure.value)
              else state.board == old(state.board) + [output]
      ensures failure.None? ==> Captured(old(state.log), state.log, world.extract(output), index)
      ensures Grown(old(state.log), state.log, index)
    {
      failure := Pause();
      if failure.None? {
        state.board := state.board + [output];
        failure := CaptureArtifacts(output, index);
      }
    }

    /** One request for JSON: no tools, and one record if it is answered. */
    method AskForJson(asking: string, ghost prompt: string, compacted: string, ghost required: seq<string>)
      returns (raw: Result<string, Failure>)
      requires Valid() && h.open == [] && Reworded(world, prompt, asking)
      modifies this, budget, state
      ensures Valid() && records == h.records
      ensures Adds(world, JsonTurn(prompt, compacted, required), old(h), h)
      ensures if raw.Err? then RunLeft(TurnFailed(raw.error))
              else
                && h.open == [] && |h.trace| > |old(h.trace)|
                && |h.records| == |old(h.records)| + 1 && h.records[|old(h.records)|].output == raw.value
    {
      ghost var before, log, board, brief := h, state.log, state.board, BriefFor(world, asking, compacted, map[], asked);
      raw := CallAgent(asking, compacted, true, map[]);
      TookParts(c, world, Now(), brief, before, h, log, state.log, board, state.board, toolRows, state.stepIndex, raw);
      TurnIsAsked(c, world, brief, JsonTurn(prompt, compacted, required), before, h, |before.trace|);
    }

    /** `call_agent_json`: asks again while the reply is not an object with the required keys. */
    method CallAgentJson(prompt: string, compacted: string, required: seq<string>, retries: nat)
      returns (r: Result<map<string, string>, RunFailure>)
      requires Valid() && h.open == []
      modifies this, budget, state
      ensures Valid()
      ensures |old(records)| <= |records| <= |old(records)| + retries + 1 && r != Err(Misconfigured)
      ensures records[..|old(records)|] == old(records)
      ensures |old(h.trace)| <= |h.trace| && h.trace[..|old(h.trace)|] == old(h.trace)
      ensures r.Err? ==> RunLeft(r.error)
      ensures AllAskedBy(world, JsonTurn(prompt, compacted, required), h.trace, |old(h.trace)|, |h.trace|)
      ensures r.Ok? ==> h.open == [] && |h.trace| > |old(h.trace)| && records != []
                        && world.parse(records[|records| - 1].output) == Some(r.value)
                        && forall k :: k in required ==> k in r.value
      ensures r == Err(NotJson) ==> h.open == [] && |records| == |old(records)| + retries + 1
      ensures r == Err(NotJson) ==> Refused(world, required, records, |old(records)|, |records|)
      ensures r.Ok? ==> |records| > |old(records)| && Refused(world, required, records, |old(records)|, |records| - 1)
    {
      var asking := prompt;
      ghost var first, request := h, JsonTurn(prompt, compacted, required);
      for attempt := 0 to retries + 1
        invariant Valid() && h.open == [] && records == h.records
        invariant JsonSoFar(world, request, first, h, attempt)
        invariant Reworded(world, prompt, asking)
      {
        ghost var before := h;
        var raw := AskForJson(asking, prompt, compacted, required);
        if raw.Err? {
          JsonFailed(world, request, first, before, h, attempt);
          return Err(TurnFailed(raw.error));
        }
        JsonAnswered(world, request, first, before, h, attempt);
        var parsed := world.parse(raw.value);
        if parsed.Some? && forall k :: k in required ==> k in parsed.value {
          return Ok(parsed.value);
        }
        asking := prompt + world.note(raw.value);
      }
      return Err(NotJson);
    }

    /** How a failed run stands: only an interruption leaves a turn torn. */
    ghost predicate RunLeft(failure: RunFailure)
      reads this, budget
    {
      match failure
      case TurnFailed(f) => Caused(c, world, Now(), f) && (!f.Interrupted? ==> Whole(c, h, toolRows))
      case _ => h.open == []
    }

    /** Where a run stands, whatever it met: the ceilings held, nothing spent is missing from the
        step records but the calls of one turn that was cut off, and the tools run are those the
        replies asked for, at most the permitted number for each call, but for some of the very
        last reply when the run was stopped. */
    lemma RunIsBounded()
      requires Valid()
      ensures budget.stepsUsed == |h.trace| && budget.spent == RecordedCost(records) + Cost(h.open)
      ensures h.trace != [] ==>
                && |h.trace| <= c.maxSteps
                && budget.spent < c.maxCost + h.trace[|h.trace| - 1].answer.cost
      ensures h.open != [] ==> Bounded(c, h.open, toolRows)
      ensures FirmTools(h.trace, c.maxToolCallsPerTurn) <= |toolRows|
      ensures |toolRows| <= ToolCount(h.trace, c.maxToolCallsPerTurn) <= |h.trace| * c.maxToolCallsPerTurn
      ensures h.open == [] ==> |toolRows| == ToolCount(h.trace, c.maxToolCallsPerTurn)
      ensures executed <= ToolCount(h.trace, c.maxToolCallsPerTurn)
    {
      if h.trace != [] {
        CeilingsHold(c, h.trace);
      }
      CostIsConserved(c, h, world.markup, state.exhausted, toolRows);
      RunRowsBounded(c, h, world.markup, state.exhausted, toolRows);
      if h.open != [] {
        OpenTurnIsBounded(c, h, world.markup, state.exhausted, toolRows);
      }
    }

    /** The next turn a topology asks for. */
    method Serve(request: Request) returns (failure: Option<RunFailure>)
      requires Valid() && h.open == []
      modifies this, budget, state
      ensures Valid() && failure != Some(Misconfigured)
      ensures failure.None? ==> h.open == [] && |h.trace| > |old(h.trace)|
      ensures failure.Some? ==> RunLeft(failure.value)
      ensures |old(records)| <= |records| && records[..|old(records)|] == old(records)
      ensures |old(h.trace)| <= |h.trace| && h.trace[..|old(h.trace)|] == old(h.trace)
      ensures AllAskedBy(world, request, h.trace, |old(h.trace)|, |h.trace|)
      ensures failure.None? ==> |old(records)| < |records| <= |old(records)| + if request.Turn? then 1 else 2
      ensures failure == Some(NotJson) ==>
                && request.JsonTurn? && |records| == |old(records)| + 2
                && Refused(world, request.required, records, |old(records)|, |records|)
    {
      match request {
        case Turn(prompt, compacted, tools) =>
          ghost var brief := BriefFor(world, prompt, compacted, tools, asked);
          var said := CallAgent(prompt, compacted, false, tools);
          TookParts(c, world, Now(), brief, old(h), h, old(state.log), state.log, old(state.board), state.board, toolRows,
                    state.stepIndex, said);
          TurnIsAsked(c, world, brief, request, old(h), h, |old(h.trace)|);
          failure := if said.Ok? then None else Some(TurnFailed(said.error));
        case JsonTurn(prompt, compacted, required) =>
          var decided := CallAgentJson(prompt, compacted, required, 1);
          failure := if decided.Ok? then None else Some(decided.error);
      }
    }

    /** The steps taken never exceed the ceiling. */
    lemma StepsLeft()
      requires Valid()
      ensures h.trace != [] ==> |h.trace| <= c.maxSteps
    {
      if h.trace != [] {
        CeilingsHold(c, h.trace);
      }
    }

    /** One more leg of a run. */
    method ServeNext(ghost choose: seq<StepRecord> -> Move, request: Request, ghost legs: seq<Leg>)
      returns (failure: Option<RunFailure>, ghost further: seq<Leg>)
      requires Valid() && h.open == [] && choose(records) == Next(request) && InLegs(world, choose, records, h.trace, legs, false)
      modifies this, budget, state
      ensures Valid() && failure != Some(Misconfigured)
      ensures if failure.None? then h.open == [] && |h.trace| > |old(h.trace)| else RunLeft(failure.value)
      ensures InLegs(world, choose, records, h.trace, further, failure.Some?) && |further| == |legs| + 1 && further[0] == legs[0]
      ensures failure == Some(NotJson) ==> UnusableJson(choose, world, records, further)
    {
      ghost var before, trace := records, h.trace;
      failure := Serve(request);
      OneMoreLeg(world, choose, before, trace, legs, records, h.trace, failure.Some?);
      further := legs + [Leg(|records|, |h.trace|)];
      if failure == Some(NotJson) {
        LastLegUnusable(choose, world, request, before, records, legs, further);
      }
    }

    /** Any topology: it looks at what the agents said so far and asks for the next turn, until
        it is done, finds its graph misconfigured, or a turn fails. The step ceiling alone makes
        it end. */
    method RunPreset(choose: seq<StepRecord> -> Move) returns (failure: Option<RunFailure>, ghost legs: seq<Leg>)
      requires Valid() && h.open == []
      modifies this, budget, state
      ensures Valid()
      ensures failure.None? ==> h.open == [] && choose(records).Done?
      ensures failure == Some(Misconfigured) ==> h.open == [] && choose(records).Fail?
      ensures failure.Some? ==> RunLeft(failure.value)
      ensures InLegs(world, choose, records, h.trace, legs, failure.Some?) && legs[0] == Leg(|old(records)|, |old(h.trace)|)
      ensures failure == Some(NotJson) ==> UnusableJson(choose, world, records, legs)
      ensures failure.Some? && !failure.value.Misconfigured? ==> |legs| >= 2
    {
      failure, legs := None, [Leg(|records|, |h.trace|)];
      var move := choose(records);
      while move.Next? && failure.None?
        invariant Valid() && move == choose(records)
        invariant if failure.None? then h.open == [] else RunLeft(failure.value) && |legs| >= 2
        invariant failure != Some(Misconfigured)
        invariant InLegs(world, choose, records, h.trace, legs, failure.Some?) && legs[0] == Leg(|old(records)|, |old(h.trace)|)
        invariant failure == Some(NotJson) ==> UnusableJson(choose, world, records, legs)
        decreases if failure.None? then 1 else 0, c.maxSteps - |h.trace|
      {
        failure, legs := ServeNext(choose, move.request, legs);
        move := choose(records);
        StepsLeft();
      }
      if failure.None? && move.Fail? {
        failure := Some(Misconfigured);
      }
    }
  }

  datatype Request =
    | Turn(prompt: string, compacted: string, tools: Tools)
    | JsonTurn(prompt: string, compacted: string, required: seq<string>)

  /** What a topology does next; `Fail` is a configuration error it finds on its way. */
  datatype Move = Next(request: Request) | Done | Fail

  /** A request for JSON, or the same with a note on a reply. */
  ghost predicate Reworded(world: World, prompt: string, asking: string) {
    asking == prompt || exists reply :: asking == prompt + world.note(reply)
  }

  /** The call was made for the request: it opens with its prompt, perhaps with the note on the last
      reply, or with the compacted form, and offers its tools or none. */
  ghost predicate AskedBy(world: World, request: Request, call: Call) {
    call.conversation != [] && call.conversation[0].role == User &&
    var content := call.conversation[0].content;
    match request
    case Turn(prompt, compacted, tools) =>
      (content == prompt || content == compacted) && (call.offered == tools.Keys || call.offered == {})
    case JsonTurn(prompt, compacted, _) =>
      (Reworded(world, prompt, content) || content == compacted) && call.offered == {}
  }

  ghost predicate AllAskedBy(world: World, request: Request, trace: seq<Call>, lo: nat, hi: nat) {
    hi <= |trace| && forall k :: lo <= k < hi ==> AskedBy(world, request, trace[k])
  }

  /** A reply is an object with the required keys. */
  ghost predicate Usable(world: World, required: seq<string>, output: string) {
    var parsed := world.parse(output);
    parsed.Some? && forall k :: k in required ==> k in parsed.value
  }

  /** None of the outputs from `lo` to `hi` could be used. */
  ghost predicate Refused(world: World, required: seq<string>, records: seq<StepRecord>, lo: nat, hi: nat) {
    hi <= |records| && forall k :: lo <= k < hi ==> !Usable(world, required, records[k].output)
  }

  /** One turn more, or less, for the request. */
  ghost predicate Adds(world: World, request: Request, before: History, after: History) {
    && |before.records| <= |after.records| <= |before.records| + 1 && after.records[..|before.records|] == before.records
    && |before.trace| <= |after.trace| && after.trace[..|before.trace|] == before.trace
    && AllAskedBy(world, request, after.trace, |before.trace|, |after.trace|)
  }

  /** `n` turns for a request for JSON, none of which could be used. */
  ghost predicate JsonSoFar(world: World, request: Request, first: History, h: History, n: nat) {
    && request.JsonTurn? && |h.records| == |first.records| + n && JsonAsked(world, request, first, h)
    && Refused(world, request.required, h.records, |first.records|, |h.records|)
  }

  ghost predicate JsonAsked(world: World, request: Request, first: History, h: History) {
    && |first.records| <= |h.records| && h.records[..|first.records|] == first.records
    && |first.trace| <= |h.trace| && h.trace[..|first.trace|] == first.trace
    && AllAskedBy(world, request, h.trace, |first.trace|, |h.trace|)
  }

  lemma JsonFailed(world: World, request: Request, first: History, before: History, after: History, n: nat)
    requires JsonSoFar(world, request, first, before, n) && Adds(world, request, before, after)
    ensures JsonAsked(world, request, first, after) && |after.records| <= |first.records| + n + 1
  {
    PrefixStays(first.records, before.records, after.records);
    PrefixStays(first.trace, before.trace, after.trace);
    forall k | |first.trace| <= k < |after.trace|
      ensures AskedBy(world, request, after.trace[k])
    {
      if k < |before.trace| {
        assert after.trace[k] == before.trace[k];
      }
    }
  }

  lemma JsonAnswered(world: World, request: Request, first: History, before: History, after: History, n: nat)
    requires JsonSoFar(world, request, first, before, n) && Adds(world, request, before, after)
    requires |after.records| == |before.records| + 1
    ensures JsonAsked(world, request, first, after) && |after.records| == |first.records| + n + 1
    ensures Refused(world, request.required, after.records, |first.records|, |before.records|)
    ensures !Usable(world, request.required, after.records[|before.records|].output) ==>
              JsonSoFar(world, request, first, after, n + 1)
  {
    JsonFailed(world, request, first, before, after, n);
    assert forall k :: 0 <= k < |before.records| ==> after.records[k] == before.records[k];
  }

  /** What a turn adds was asked for by the request it serves. */
  lemma TurnIsAsked(c: Config, world: World, brief: Brief, request: Request, before: History, after: History, lo: nat)
    requires AddedTurn(c, world, brief, before, after) && AllAskedBy(world, request, before.trace, lo, |before.trace|)
    requires match request
             case Turn(prompt, compacted, tools) =>
               brief.prompt == prompt && brief.tools == tools && (brief.opening == prompt || brief.opening == compacted)
             case JsonTurn(prompt, compacted, _) =>
               brief.tools == map[] && Reworded(world, prompt, brief.prompt) &&
               (brief.opening == brief.prompt || brief.opening == compacted)
    ensures AllAskedBy(world, request, after.trace, lo, |after.trace|)
  {
    var n, calls := |before.trace|, after.trace[|before.trace|..];
    forall k | lo <= k < |after.trace|
      ensures AskedBy(world, request, after.trace[k])
    {
      if k < n {
        assert after.trace[..n][k] == before.trace[k];
      } else {
        assert Asks(c, world, brief, calls, k - n) && calls[k - n] == after.trace[k];
      }
    }
  }

  /** Where a run stands when its topology makes a request. */
  datatype Leg = Leg(records: nat, calls: nat)

  /** From one request to the next: the topology asked with what was recorded by then, all calls are
      for that request, and it added one record, or for JSON perhaps a second. */
  ghost predicate IsLeg(world: World, choose: seq<StepRecord> -> Move, records: seq<StepRecord>, trace: seq<Call>,
                        a: Leg, b: Leg, cut: bool)
  {
    && a.records <= b.records <= |records| && a.calls <= b.calls
    && choose(records[..a.records]).Next?
    && AllAskedBy(world, choose(records[..a.records]).request, trace, a.calls, b.calls)
    && (!cut ==> a.records < b.records <= a.records + if choose(records[..a.records]).request.Turn? then 1 else 2)
  }

  ghost predicate InLegs(world: World, choose: seq<StepRecord> -> Move, records: seq<StepRecord>, trace: seq<Call>,
                         legs: seq<Leg>, cut: bool)
  {
    && legs != [] && legs[|legs| - 1] == Leg(|records|, |trace|)
    && forall i :: 0 <= i < |legs| - 1 ==>
         IsLeg(world, choose, records, trace, legs[i], legs[i + 1], cut && i == |legs| - 2)
  }

  /** The last request was for JSON, twice, and neither reply could be used. */
  ghost predicate UnusableJson(choose: seq<StepRecord> -> Move, world: World, records: seq<StepRecord>, legs: seq<Leg>) {
    |legs| >= 2 &&
    var a, n := legs[|legs| - 2].records, |records|;
    && a + 2 == n && choose(records[..a]).Next? && choose(records[..a]).request.JsonTurn?
    && Refused(world, choose(records[..a]).request.required, records, a, n)
  }

  lemma LastLegUnusable(choose: seq<StepRecord> -> Move, world: World, request: Request, before: seq<StepRecord>,
                        records: seq<StepRecord>, legs: seq<Leg>, further: seq<Leg>)
    requires choose(before) == Next(request) && request.JsonTurn? && legs != [] && legs[|legs| - 1].records == |before|
    requires |records| == |before| + 2 && records[..|before|] == before && |further| == |legs| + 1
    requires further[|legs| - 1] == legs[|legs| - 1] && Refused(world, request.required, records, |before|, |records|)
    ensures UnusableJson(choose, world, records, further)
  {}

  lemma PrefixStays<T>(a: seq<T>, b: seq<T>, c: seq<T>)
    requires |a| <= |b| <= |c| && b[..|a|] == a && c[..|b|] == b
    ensures c[..|a|] == a
  {}

  lemma OneMoreLeg(world: World, choose: seq<StepRecord> -> Move, records: seq<StepRecord>, trace: seq<Call>, legs: seq<Leg>,
                   more: seq<StepRecord>, longer: seq<Call>, cut: bool)
    requires InLegs(world, choose, records, trace, legs, false) && choose(records).Next?
    requires |records| <= |more| && more[..|records|] == records && |trace| <= |longer| && longer[..|trace|] == trace
    requires AllAskedBy(world, choose(records).request, longer, |trace|, |longer|)
    requires !cut ==> |records| < |more| <= |records| + if choose(records).request.Turn? then 1 else 2
    ensures InLegs(world, choose, more, longer, legs + [Leg(|more|, |longer|)], cut)
  {
    var further := legs + [Leg(|more|, |longer|)];
    forall i | 0 <= i < |further| - 1
      ensures IsLeg(world, choose, more, longer, further[i], further[i + 1], cut && i == |further| - 2)
    {
      if i < |legs| - 1 {
        var a, b := legs[i], legs[i + 1];
        assert IsLeg(world, choose, records, trace, a, b, false);
        assert more[..a.records] == records[..a.records];
        assert forall k :: 0 <= k < |trace| ==> longer[k] == trace[k];
      }
    }
  }

  /** A turn, from one state of the run to the other: what it sent, what it wrote, and its end: a
      record with the output, which stands on the board with its files in the store, or a failure. */
  ghost predicate IsTook(c: Config, world: World, at: Moment, brief: Brief, before: History, after: History, log: seq<Artifact>,
                         longer: seq<Artifact>, board: seq<string>, shown: seq<string>, rows: seq<ToolRow>, step: nat,
                         r: Result<string, Failure>)
  {
    && AddedTurn(c, world, brief, before, after) && Grown(log, longer, step)
    && match r
       case Ok(output) =>
         && Extends(before, after) && after.records[|before.records|].output == output
         && after.records[|before.records|].index == step
         && shown == board + [output] && Filed(world, log, longer, output, step)
       case Err(failure) => GaveUp(c, world, at, before, after, rows, failure) && Said(board, shown, failure)
  }

  /** Folded, like `WellRun`. */
  ghost predicate Took(c: Config, world: World, at: Moment, brief: Brief, before: History, after: History, log: seq<Artifact>,
                       longer: seq<Artifact>, board: seq<string>, shown: seq<string>, rows: seq<ToolRow>, step: nat,
                       r: Result<string, Failure>)
  {
    forall g: History {:trigger Opened(g)} :: Opened(g) && g == after ==>
      IsTook(c, world, at, brief, before, g, log, longer, board, shown, rows, step, r)
  }

  lemma TookParts(c: Config, world: World, at: Moment, brief: Brief, before: History, after: History, log: seq<Artifact>,
                  longer: seq<Artifact>, board: seq<string>, shown: seq<string>, rows: seq<ToolRow>, step: nat,
                  r: Result<string, Failure>)
    requires Took(c, world, at, brief, before, after, log, longer, board, shown, rows, step, r)
    ensures IsTook(c, world, at, brief, before, after, log, longer, board, shown, rows, step, r)
  {
    assert Opened(after);
  }

  function ResultOf(failure: Option<Failure>, totals: StepRecord): Result<string, Failure> {
    if failure.Some? then Err(failure.value) else Ok(totals.output)
  }

  /** A turn that did not fail may be interrupted after its record. */
  lemma StoppedLate(c: Config, world: World, was: Moment, at: Moment, brief: Brief, before: History, after: History,
                    log: seq<Artifact>, longer: seq<Artifact>, board: seq<string>, shown: seq<string>, rows: seq<ToolRow>,
                    step: nat, r: Result<string, Failure>, stop: Option<Failure>)
    requires Took(c, world, was, brief, before, after, log, longer, board, shown, rows, step, r)
    requires r.Err? ==> at == was && stop.None?
    requires stop.Some? ==> stop.value.Interrupted? && Caused(c, world, at, stop.value)
    ensures Took(c, world, at, brief, before, after, log, longer, board, shown, rows, step,
                 if stop.Some? then Err(stop.value) else r)
  {
    TookParts(c, world, was, brief, before, after, log, longer, board, shown, rows, step, r);
    assert IsTook(c, world, at, brief, before, after, log, longer, board, shown, rows, step,
                  if stop.Some? then Err(stop.value) else r);
  }

  /** A turn that stops before its first call. */
  lemma NotBegun(c: Config, world: World, at: Moment, brief: Brief, h: History, exhausted: set<nat>, log: seq<Artifact>,
                 board: seq<string>, rows: seq<ToolRow>, step: nat, failure: Failure)
    requires WellRun(c, h, world.markup, exhausted, rows) && h.open == [] && Caused(c, world, at, failure)
    ensures Took(c, world, at, brief, h, h, log, log, board, board, rows, step, Err(failure))
  {
    NothingOpen(c, h, world.markup, exhausted, rows);
    assert h.trace[|h.trace|..] == [];
    assert IsTook(c, world, at, brief, h, h, log, log, board, board, rows, step, Err(failure));
  }

  /** What the turn added to the run is what it was to send, and what the model answered. */
  ghost predicate AddedTurn(c: Config, world: World, brief: Brief, before: History, after: History) {
    && |before.trace| <= |after.trace| && after.trace[..|before.trace|] == before.trace
    && Scripted(c, world, brief, after.trace[|before.trace|..])
  }

  /** One more finished turn. */
  ghost predicate Extends(before: History, after: History) {
    && |after.records| == |before.records| + 1 && after.records[..|before.records|] == before.records
    && after.open == [] && |after.trace| > |before.trace|
  }

  /** A turn that stops before its first call leaves the run as it was. */
  lemma NothingOpen(c: Config, h: History, markup: nat -> nat, exhausted: set<nat>, rows: seq<ToolRow>)
    requires WellRun(c, h, markup, exhausted, rows) && h.open == []
    ensures h == CutOff(h, h.open) && Whole(c, h, rows)
  {
    assert h.trace + [] == h.trace;
    AllRowsThere(c, h, markup, exhausted, rows);
  }

  /** A turn that failed is cut off, in the middle of a batch only by an interruption. */
  ghost predicate Left(c: Config, world: World, at: Moment, failure: Failure, settled: seq<ToolRow>, rows: seq<ToolRow>, executed: nat,
                       calls: seq<Call>, index: nat)
  {
    Caused(c, world, at, failure) && Torn(c, settled, rows, executed, calls, index, !failure.Interrupted?)
  }

  predicate Orderly(failure: Option<Failure>) {
    failure.Some? && !failure.value.Interrupted?
  }

  /** What a turn that failed leaves. Only an interrupted one can have a record. */
  ghost predicate GaveUp(c: Config, world: World, at: Moment, before: History, after: History, rows: seq<ToolRow>, failure: Failure) {
    && Caused(c, world, at, failure)
    && (after == CutOff(before, after.open) || (failure.Interrupted? && Extends(before, after)))
    && (!failure.Interrupted? ==> Whole(c, after, rows))
  }

  /** Only an interrupted turn can have put its output on the board. */
  ghost predicate Said(before: seq<string>, board: seq<string>, failure: Failure) {
    board == before || (failure.Interrupted? && exists output :: board == before + [output])
  }

  /** The guards are passed: one more call may be made. */
  ghost predicate MayCall(c: Config, trace: seq<Call>) {
    |trace| < c.maxSteps && Cost(trace) < c.maxCost
  }

  lemma BookedOne(c: Config, past: seq<Call>, calls: seq<Call>, call: Call)
    requires Guarded(c, past + calls) && MayCall(c, past + calls)
    ensures Guarded(c, past + (calls + [call]))
    ensures |past + (calls + [call])| == |past + calls| + 1
    ensures Cost(past + (calls + [call])) == Cost(past + calls) + call.answer.cost
  {
    var longer := past + (calls + [call]);
    assert longer[..|longer| - 1] == past + calls;
  }

  lemma CallMade(c: Config, world: World, index: nat, past: seq<Call>, before: seq<Call>, conversation: seq<Message>,
                 totals: StepRecord, brief: Brief, compacted: string, asked: nat, call: Call, later: nat)
    requires Turning(c, world.markup, index, before, conversation, totals) && totals.modelCalls == |before| <= c.maxToolIterations
    requires Ready(c, world, brief, compacted, before, conversation, asked) && call.step == index
    requires Guarded(c, past + before) && MayCall(c, past + before)
    requires call.offered == if |before| == c.maxToolIterations then {} else brief.tools.Keys
    requires var over := before == [] && world.reply(asked).Overflow?;
             && call.conversation == (if over then [Text(compacted)] else conversation)
             && later == asked + (if over then 2 else 1) && world.reply(later - 1) == Completed(call.answer)
    ensures var calls := before + [call];
            && calls[..|before|] == before && calls[|before|] == call
            && Guarded(c, past + calls) && |past + calls| == |past + before| + 1
            && Cost(past + calls) == Cost(past + before) + call.answer.cost
            && Turns.Answered(c, world.markup, index, calls, conversation, AddUp(c, world.markup, totals, call.answer))
            && Carried(c, world, brief, calls, conversation, later)
  {
    AskedStep(c, world.markup, index, before, conversation, totals, call);
    CallCarries(c, world, brief, compacted, before, conversation, asked, call, later);
    BookedOne(c, past, before, call);
  }

  lemma AnsweredMatches(world: World, tools: Tools, calls: seq<ToolCall>, results: seq<ToolResult>)
    requires AllAnswered(world, tools, calls, results)
    ensures Matches(calls, results)
  {
    forall p | 0 <= p < |calls|
      ensures results[p].callId == calls[p].id && results[p].name == calls[p].name
    {
      assert Answers(world, tools, calls[p], results[p]);
    }
  }
}
