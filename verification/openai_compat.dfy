/** The adapter for the Chat Completions format (core/llm/providers/openai_compat.py): mapping a
    conversation onto its messages, and putting streamed tool calls back together. */
module OpenAICompat {
  import opened Common
  import opened Turns

  // ---- Conversations ------------------------------------------------------------------

  datatype Wire =
    | SystemMessage(content: string)
    | TextMessage(role: Role, content: string)
    | CallMessage(text: Option<string>, calls: seq<ToolCall>)
    | ToolMessage(callId: string, content: string)

  /** `_to_openai`: tool results become one message each. */
  function ToOpenAI(m: Message): seq<Wire> {
    if m.toolResults != [] then seq(|m.toolResults|, i requires 0 <= i < |m.toolResults| =>
                                                       ToolMessage(m.toolResults[i].callId, m.toolResults[i].content))
    else if m.toolCalls != [] then [CallMessage(if m.content == "" then None else Some(m.content), m.toolCalls)]
    else [TextMessage(m.role, m.content)]
  }

  function Mapped(conversation: seq<Message>): seq<Wire> {
    if conversation == [] then []
    else Mapped(conversation[..|conversation| - 1]) + ToOpenAI(conversation[|conversation| - 1])
  }

  /** The message list of a request. */
  function Messages(system: string, conversation: seq<Message>): seq<Wire> {
    (if system != "" then [SystemMessage(system)] else []) + Mapped(conversation)
  }

  /** The first messages are the answers to the calls, in order. */
  predicate Answers(calls: seq<ToolCall>, w: seq<Wire>) {
    |calls| <= |w| && forall i :: 0 <= i < |calls| ==> w[i].ToolMessage? && w[i].callId == calls[i].id
  }

  /** What the format demands: every message with calls is directly followed by one answer to
      each of them, and no answer stands anywhere else. */
  predicate WellAnswered(w: seq<Wire>)
    decreases |w|
  {
    if w == [] then true
    else if w[0].CallMessage? then Answers(w[0].calls, w[1..]) && WellAnswered(w[1 + |w[0].calls|..])
    else !w[0].ToolMessage? && WellAnswered(w[1..])
  }

  lemma DropFromSum<T>(a: seq<T>, b: seq<T>, n: nat)
    requires n <= |a|
    ensures (a + b)[n..] == a[n..] + b
  {}

  lemma {:induction false} WellAnsweredAppend(a: seq<Wire>, b: seq<Wire>)
    requires WellAnswered(a) && WellAnswered(b)
    ensures WellAnswered(a + b)
    decreases |a|
  {
    if a == [] {
      assert a + b == b;
    } else if a[0].CallMessage? {
      var n := 1 + |a[0].calls|;
      DropFromSum(a, b, 1);
      DropFromSum(a, b, n);
      WellAnsweredAppend(a[n..], b);
    } else {
      DropFromSum(a, b, 1);
      WellAnsweredAppend(a[1..], b);
    }
  }

  lemma ExchangeIsAnswered(request: Message, response: Message)
    requires IsExchange(request, response)
    ensures WellAnswered(ToOpenAI(request) + ToOpenAI(response))
  {
    var w := ToOpenAI(request) + ToOpenAI(response);
    if request.toolCalls != [] {
      assert w[1..] == ToOpenAI(response);
      assert w[1 + |request.toolCalls|..] == [];
    } else {
      assert w[1..] == ToOpenAI(response);
      assert w[1..][1..] == [];
    }
  }

  lemma MappedSnoc(conversation: seq<Message>, m: Message)
    ensures Mapped(conversation + [m]) == Mapped(conversation) + ToOpenAI(m)
  {
    assert (conversation + [m])[..|conversation|] == conversation;
  }

  lemma Regroup<T>(a: seq<T>, b: seq<T>, c: seq<T>)
    ensures a + b + c == a + (b + c)
  {}

  lemma OneTextIsAnswered(m: Message)
    requires IsText(m)
    ensures WellAnswered(Mapped([m]))
  {
    MappedSnoc([], m);
    assert [] + [m] == [m];
    assert Mapped([m]) == [TextMessage(m.role, m.content)];
  }

  lemma {:induction false} PairedIsAnswered(conversation: seq<Message>)
    requires WellPaired(conversation)
    ensures WellAnswered(Mapped(conversation))
    decreases |conversation|
  {
    var n := |conversation|;
    if n == 1 {
      assert conversation == [conversation[0]];
      OneTextIsAnswered(conversation[0]);
    } else {
      var front, request, response := conversation[..n - 2], conversation[n - 2], conversation[n - 1];
      PairedIsAnswered(front);
      ExchangeIsAnswered(request, response);
      WellAnsweredAppend(Mapped(front), ToOpenAI(request) + ToOpenAI(response));
      MappedTwo(conversation, front, request, response);
    }
  }

  lemma MappedTwo(conversation: seq<Message>, front: seq<Message>, request: Message, response: Message)
    requires conversation == front + [request] + [response]
    ensures Mapped(conversation) == Mapped(front) + (ToOpenAI(request) + ToOpenAI(response))
  {
    MappedSnoc(front, request);
    MappedSnoc(front + [request], response);
    Regroup(Mapped(front), ToOpenAI(request), ToOpenAI(response));
  }

  function CallIds(w: seq<Wire>): seq<string> {
    if w == [] then []
    else (if w[0].CallMessage? then IdsOf(w[0].calls) else []) + CallIds(w[1..])
  }

  function IdsOf(calls: seq<ToolCall>): seq<string> {
    seq(|calls|, i requires 0 <= i < |calls| => calls[i].id)
  }

  function AnsweredIds(w: seq<Wire>): seq<string> {
    if w == [] then []
    else (if w[0].ToolMessage? then [w[0].callId] else []) + AnsweredIds(w[1..])
  }

  lemma {:induction false} SkipAnswers(calls: seq<ToolCall>, w: seq<Wire>)
    requires Answers(calls, w)
    ensures CallIds(w) == CallIds(w[|calls|..]) && AnsweredIds(w) == IdsOf(calls) + AnsweredIds(w[|calls|..])
  {
    if calls != [] {
      SkipAnswers(calls[1..], w[1..]);
      assert w[1..][|calls[1..]|..] == w[|calls|..];
      assert IdsOf(calls) == [calls[0].id] + IdsOf(calls[1..]);
    } else {
      assert w[0..] == w;
    }
  }

  /** So the ids of the answers are the ids of the calls, in the same order. */
  lemma {:induction false} AnswersMirrorCalls(w: seq<Wire>)
    requires WellAnswered(w)
    ensures AnsweredIds(w) == CallIds(w)
    decreases |w|
  {
    if w != [] {
      if w[0].CallMessage? {
        SkipAnswers(w[0].calls, w[1..]);
        assert w[1..][|w[0].calls|..] == w[1 + |w[0].calls|..];
        AnswersMirrorCalls(w[1 + |w[0].calls|..]);
      } else {
        AnswersMirrorCalls(w[1..]);
      }
    }
  }

  /** Every request the engine sends, in finished turns and in one that was cut off, is well
      answered, and given distinct ids each tool call in it is answered exactly once. */
  lemma RequestsAreAnswered(c: Config, h: History, markup: nat -> nat, exhausted: set<nat>, rows: seq<ToolRow>, k: nat,
                            system: string)
    requires WellRun(c, h, markup, exhausted, rows) && k < |h.trace|
    ensures var w := Messages(system, h.trace[k].conversation);
            && WellAnswered(w) && AnsweredIds(w) == CallIds(w)
            && (Distinct(CallIds(w)) ==> forall id :: id in CallIds(w) ==> multiset(AnsweredIds(w))[id] == 1)
  {
    var j := ConversationsArePaired(c, h, markup, exhausted, rows, k);
    var conversation := h.trace[k].conversation;
    var w := Messages(system, conversation);
    PairedIsAnswered(conversation);
    if system != "" {
      WellAnsweredAppend([SystemMessage(system)], Mapped(conversation));
    } else {
      assert w == Mapped(conversation);
    }
    AnswersMirrorCalls(w);
    if Distinct(CallIds(w)) {
      DistinctOnce(CallIds(w));
    }
  }

  lemma {:induction false} DistinctOnce(s: seq<string>)
    requires Distinct(s)
    ensures forall x :: x in s ==> multiset(s)[x] == 1
  {
    if s != [] {
      var front, last := s[..|s| - 1], s[|s| - 1];
      assert s == front + [last];
      DistinctOnce(front);
    }
  }

  // ---- Reading a request back ---------------------------------------------------------

  /** Where the answers at the end of the list begin. */
  function LastAnswers(w: seq<Wire>): (k: nat)
    ensures k <= |w| && forall i :: k <= i < |w| ==> w[i].ToolMessage?
    ensures k > 0 ==> !w[k - 1].ToolMessage?
  {
    if w == [] || !w[|w| - 1].ToolMessage? then |w| else LastAnswers(w[..|w| - 1])
  }

  /** A result as the format carries it: by the id of its call, without name and error flag. */
  function Result(w: Wire): ToolResult
    requires w.ToolMessage?
  {
    ToolResult(w.callId, "", w.content, false)
  }

  function Results(w: seq<Wire>): seq<ToolResult>
    requires forall i :: 0 <= i < |w| ==> w[i].ToolMessage?
  {
    seq(|w|, i requires 0 <= i < |w| => Result(w[i]))
  }

  /** What a list of messages says: answers in a row are one turn. */
  function Decoded(w: seq<Wire>): seq<Message>
    decreases |w|
  {
    if w == [] then []
    else
      var n := |w| - 1;
      match w[n]
      case SystemMessage(_) => Decoded(w[..n])
      case TextMessage(role, content) => Decoded(w[..n]) + [Message(role, content, [], [])]
      case CallMessage(text, calls) =>
        Decoded(w[..n]) + [Message(Assistant, if text.Some? then text.value else "", calls, [])]
      case ToolMessage(_, _) =>
        var k := LastAnswers(w);
        assert k < |w|;
        Decoded(w[..k]) + [Message(User, "", [], Results(w[k..]))]
  }

  /** A message without what the format does not carry. */
  function Carried(m: Message): Message {
    m.(toolResults := seq(|m.toolResults|, i requires 0 <= i < |m.toolResults| =>
                                             ToolResult(m.toolResults[i].callId, "", m.toolResults[i].content, false)))
  }

  function AllCarried(conversation: seq<Message>): seq<Message> {
    seq(|conversation|, i requires 0 <= i < |conversation| => Carried(conversation[i]))
  }

  lemma DecodedAnswers(w: seq<Wire>, answers: seq<Wire>)
    requires w != [] && !w[|w| - 1].ToolMessage? && answers != []
    requires forall i :: 0 <= i < |answers| ==> answers[i].ToolMessage?
    ensures Decoded(w + answers) == Decoded(w) + [Message(User, "", [], Results(answers))]
  {
    var all := w + answers;
    LastAnswersAre(w, answers);
    assert all[..|w|] == w && all[|w|..] == answers;
  }

  lemma {:induction false} LastAnswersAre(w: seq<Wire>, answers: seq<Wire>)
    requires w != [] && !w[|w| - 1].ToolMessage?
    requires forall i :: 0 <= i < |answers| ==> answers[i].ToolMessage?
    ensures LastAnswers(w + answers) == |w|
  {
    if answers == [] {
      assert w + answers == w;
    } else {
      var n := |answers| - 1;
      LastAnswersAre(w, answers[..n]);
      assert (w + answers)[..|w| + n] == w + answers[..n];
    }
  }

  lemma DecodedOne(w: seq<Wire>, m: Message)
    requires m.toolResults == [] && (m.toolCalls != [] ==> m.role == Assistant)
    ensures Decoded(w + ToOpenAI(m)) == Decoded(w) + [Carried(m)]
  {
    var all := w + ToOpenAI(m);
    assert all[..|w|] == w && |ToOpenAI(m)| == 1;
    assert Carried(m).toolResults == [];
  }

  lemma ExchangeDecoded(w: seq<Wire>, request: Message, response: Message)
    requires IsExchange(request, response)
    ensures Decoded(w + ToOpenAI(request) + ToOpenAI(response)) == Decoded(w) + [Carried(request)] + [Carried(response)]
  {
    DecodedOne(w, request);
    if response.toolResults == [] {
      DecodedOne(w + ToOpenAI(request), response);
    } else {
      var answers := ToOpenAI(response);
      DecodedAnswers(w + ToOpenAI(request), answers);
      assert Results(answers) == Carried(response).toolResults;
    }
  }

  ghost predicate IsCarried(conversation: seq<Message>) {
    Decoded(Mapped(conversation)) == AllCarried(conversation)
  }

  /** Nothing is lost on the way but names and error flags of results: texts, roles, calls and the
      contents of results can be read off the messages, in order. */
  lemma {:induction false} ConversationIsCarried(conversation: seq<Message>)
    requires WellPaired(conversation)
    ensures IsCarried(conversation)
    decreases |conversation|
  {
    var n := |conversation|;
    if n == 1 {
      assert conversation == [conversation[0]];
      OneIsCarried(conversation[0]);
    } else {
      var front, request, response := conversation[..n - 2], conversation[n - 2], conversation[n - 1];
      ConversationIsCarried(front);
      ExchangeIsCarried(front, request, response);
      LastTwo(conversation);
    }
  }

  lemma LastTwo<T>(s: seq<T>)
    requires |s| >= 2
    ensures s == s[..|s| - 2] + [s[|s| - 2]] + [s[|s| - 1]]
  {}

  lemma OneIsCarried(m: Message)
    requires IsText(m)
    ensures IsCarried([m])
  {
    MappedSnoc([], m);
    DecodedOne([], m);
    assert [] + [m] == [m] && [] + ToOpenAI(m) == Mapped([m]);
  }

  lemma ExchangeIsCarried(front: seq<Message>, request: Message, response: Message)
    requires IsExchange(request, response) && IsCarried(front)
    ensures IsCarried(front + [request] + [response])
  {
    ExchangeDecoded(Mapped(front), request, response);
    MappedTwo(front + [request] + [response], front, request, response);
    Regroup(Mapped(front), ToOpenAI(request), ToOpenAI(response));
    TwoCarried(front, request, response);
  }

  lemma TwoCarried(front: seq<Message>, request: Message, response: Message)
    ensures AllCarried(front + [request] + [response]) == AllCarried(front) + [Carried(request)] + [Carried(response)]
  {}

  /** Every request of a run says the system prompt, if there is one, and then the conversation. */
  lemma RequestsSayTheConversation(c: Config, h: History, markup: nat -> nat, exhausted: set<nat>, rows: seq<ToolRow>, k: nat,
                                   system: string)
    requires WellRun(c, h, markup, exhausted, rows) && k < |h.trace|
    ensures var w, conversation := Messages(system, h.trace[k].conversation), h.trace[k].conversation;
            if system == "" then Decoded(w) == AllCarried(conversation)
            else w != [] && w[0] == SystemMessage(system) && Decoded(w[1..]) == AllCarried(conversation)
  {
    var j := ConversationsArePaired(c, h, markup, exhausted, rows, k);
    ConversationIsCarried(h.trace[k].conversation);
    AfterTheSystem(system, Mapped(h.trace[k].conversation));
  }

  lemma AfterTheSystem(system: string, w: seq<Wire>)
    ensures [] + w == w && ([SystemMessage(system)] + w)[1..] == w
  {}

  // ---- The ids of a request -----------------------------------------------------------

  lemma {:induction false} CallIdsJoined(a: seq<Wire>, b: seq<Wire>)
    ensures CallIds(a + b) == CallIds(a) + CallIds(b)
  {
    if a == [] {
      assert a + b == b;
    } else {
      CallIdsJoined(a[1..], b);
      assert (a + b)[1..] == a[1..] + b;
    }
  }

  function OwnIds(m: Message): seq<string> {
    if m.toolResults != [] then [] else IdsOf(m.toolCalls)
  }

  lemma {:induction false} NoIdsInAnswers(w: seq<Wire>)
    requires forall i :: 0 <= i < |w| ==> w[i].ToolMessage?
    ensures CallIds(w) == []
  {
    if w != [] {
      NoIdsInAnswers(w[1..]);
    }
  }

  lemma IdsOfMapped(m: Message)
    ensures CallIds(ToOpenAI(m)) == OwnIds(m)
  {
    var w := ToOpenAI(m);
    if m.toolResults != [] {
      NoIdsInAnswers(w);
    } else {
      assert w[1..] == [] && CallIds(w[1..]) == [];
    }
  }

  /** The ids of the calls in a conversation. */
  function IdsIn(conversation: seq<Message>): seq<string> {
    if conversation == [] then []
    else IdsIn(conversation[..|conversation| - 1]) + OwnIds(conversation[|conversation| - 1])
  }

  lemma {:induction false} IdsOfConversation(conversation: seq<Message>)
    ensures CallIds(Mapped(conversation)) == IdsIn(conversation)
  {
    if conversation != [] {
      var n := |conversation| - 1;
      IdsOfConversation(conversation[..n]);
      CallIdsJoined(Mapped(conversation[..n]), ToOpenAI(conversation[n]));
      IdsOfMapped(conversation[n]);
    }
  }

  lemma {:induction false} IdsAfterTheFirst(a: seq<Message>, b: seq<Message>)
    requires a != [] && b != [] && a[1..] == b[1..] && OwnIds(a[0]) == OwnIds(b[0])
    ensures IdsIn(a) == IdsIn(b)
  {
    var n := |a| - 1;
    assert |a[1..]| == |b[1..]|;
    if n == 0 {
      assert a[..0] == b[..0];
    } else {
      assert a[n] == a[1..][n - 1] && b[n] == b[1..][n - 1];
      assert a[..n][1..] == a[1..][..n - 1] && b[..n][1..] == b[1..][..n - 1];
      IdsAfterTheFirst(a[..n], b[..n]);
    }
  }

  lemma {:induction false} FirstIsText(conversation: seq<Message>)
    requires WellPaired(conversation)
    ensures IsText(conversation[0])
  {
    if |conversation| > 1 {
      FirstIsText(conversation[..|conversation| - 2]);
    }
  }

  lemma IdsOfLastTwo(conversation: seq<Message>, n: nat)
    requires |conversation| == n + 2
    ensures IdsIn(conversation) == IdsIn(conversation[..n]) + OwnIds(conversation[n]) + OwnIds(conversation[n + 1])
  {
    assert conversation[..n + 1][..n] == conversation[..n];
  }

  /** One more exchange adds the ids of what the reply asked for. */
  lemma IdsOfFollowUp(c: Config, before: Call, conversation: seq<Message>)
    requires WellPaired(before.conversation) && WellPaired(conversation) && FollowsUp(c, before, conversation)
    ensures IdsIn(conversation) == IdsIn(before.conversation) + IdsOf(Requested(before.answer, c.maxToolCallsPerTurn))
  {
    var n, earlier := |before.conversation|, conversation[..|before.conversation|];
    FirstIsText(conversation);
    FirstIsText(before.conversation);
    assert earlier[1..] == conversation[1..n];
    IdsAfterTheFirst(earlier, before.conversation);
    IdsOfLastTwo(conversation, n);
    assert IsExchange(conversation[n], conversation[n + 1]);
    assert OwnIds(conversation[n + 1]) == [];
  }

  /** The ids of what the replies from call `k - j` up to call `k` asked for. */
  function RequestedIds(c: Config, trace: seq<Call>, k: int, j: nat): seq<string>
    requires j <= k <= |trace|
    decreases j
  {
    if j == 0 then []
    else RequestedIds(c, trace, k - 1, j - 1) + IdsOf(Requested(trace[k - 1].answer, c.maxToolCallsPerTurn))
  }

  lemma {:induction false} IdsOfTurn(c: Config, trace: seq<Call>, k: int, j: nat)
    requires InTurn(c, trace, k, j)
    ensures IdsIn(trace[k].conversation) == RequestedIds(c, trace, k, j)
    decreases j
  {
    if j == 0 {
      FirstIsText(trace[k].conversation);
      assert trace[k].conversation[..0] == [];
    } else {
      IdsOfTurn(c, trace, k - 1, j - 1);
      IdsOfFollowUp(c, trace[k - 1], trace[k].conversation);
    }
  }

  /** The tool call ids of a request are those its turn's earlier replies asked for, so they are
      distinct exactly when no two of these share one. */
  lemma IdsOfRequest(c: Config, h: History, markup: nat -> nat, exhausted: set<nat>, rows: seq<ToolRow>, k: nat,
                     system: string) returns (j: nat)
    requires WellRun(c, h, markup, exhausted, rows) && k < |h.trace|
    ensures InTurn(c, h.trace, k, j)
    ensures CallIds(Messages(system, h.trace[k].conversation)) == RequestedIds(c, h.trace, k, j)
  {
    j := ConversationsArePaired(c, h, markup, exhausted, rows, k);
    var conversation := h.trace[k].conversation;
    IdsOfConversation(conversation);
    IdsOfTurn(c, h.trace, k, j);
    if system != "" {
      var w := [SystemMessage(system)] + Mapped(conversation);
      assert w[1..] == Mapped(conversation);
    } else {
      assert [] + Mapped(conversation) == Mapped(conversation);
    }
  }
}
