// The single-turn ReAct loop: ask the model, run the tool it names, feed the result back,
// until it answers, becomes unavailable, or the iteration limit forces an answer.
module AgentRuntime {
  import opened Wrappers
  import opened PyText
  import opened AgentReply

  datatype Role = System | User | Assistant | Tool

  datatype Message = Message(role: Role, content: string)

  // ---------- The world around the loop ----------

  datatype LlmOutcome = Replied(text: string) | Unavailable(message: string)

  datatype ToolOutcome = Unknown(reason: string) | Raised | Done(success: bool, data: string, error: Option<string>)

  datatype ToolRecord = ToolRecord(tool: string, params: Params, success: bool, error: Option<string>)

  /** The model by call number and prompt, the tools by call number and call, the decoding of
      a captured object, and the rendering of a tool result as text. */
  datatype World = World(
    llm: (nat, seq<Message>) -> LlmOutcome,
    tools: (nat, ToolCall) -> ToolOutcome,
    decode: Decoder,
    format: (string, bool, Option<string>, Option<string>) -> string)
  {
    /** The same world after some calls. */
    function From(prompts: nat, requests: nat): World {
      this.(llm := (k: nat, messages) => llm(prompts + k, messages),
            tools := (k: nat, call) => tools(requests + k, call))
    }
  }

  /** The model client and the tool registry. Their only answers come from these two methods,
      which keep every prompt sent and every tool call requested. */
  class Backend {
    const world: World
    var prompts: seq<seq<Message>>
    var requests: seq<ToolCall>

    constructor (world: World)
      ensures this.world == world && prompts == [] && requests == []
    {
      this.world, prompts, requests := world, [], [];
    }

    method Chat(messages: seq<Message>) returns (outcome: LlmOutcome)
      modifies this`prompts
      ensures outcome == world.llm(|old(prompts)|, messages)
      ensures prompts == old(prompts) + [messages]
    {
      outcome := world.llm(|prompts|, messages);
      prompts := prompts + [messages];
    }

    method Invoke(call: ToolCall) returns (outcome: ToolOutcome)
      modifies this`requests
      ensures outcome == world.tools(|old(requests)|, call)
      ensures requests == old(requests) + [call]
    {
      outcome := world.tools(|requests|, call);
      requests := requests + [call];
    }
  }

  datatype TurnResult = TurnResult(answer: string, toolCalls: seq<ToolRecord>, iterations: int)

  const LIMIT_MESSAGE := Message(User, "You have reached the tool call limit. Provide your ANSWER: now.")

  const TOOL_ERROR := "Tool execution error"

  function RecordOf(call: ToolCall, outcome: ToolOutcome): ToolRecord {
    match outcome
    case Unknown(error) => ToolRecord(call.tool, call.params, false, Some(error))
    case Raised => ToolRecord(call.tool, call.params, false, Some(TOOL_ERROR))
    case Done(success, _, error) => ToolRecord(call.tool, call.params, success, error)
  }

  function FeedbackOf(w: World, call: ToolCall, outcome: ToolOutcome): string {
    match outcome
    case Unknown(error) => w.format(call.tool, false, None, Some(error))
    case Raised => w.format(call.tool, false, None, Some(TOOL_ERROR))
    case Done(success, data, error) => w.format(call.tool, success, Some(data), error)
  }

  // ---------- What a turn is ----------

  /** One think-act-observe round. */
  datatype Exchange = Exchange(reply: string, call: ToolCall, record: ToolRecord, feedback: string)

  datatype Exit = Answered | ModelUnavailable | Forced

  /** A finished turn: its rounds, how it ended, its result and the final transcript. */
  datatype Turn = Turn(exchanges: seq<Exchange>, exit: Exit, result: TurnResult, messages: seq<Message>)

  function Flatten(exchanges: seq<Exchange>): seq<Message> {
    if exchanges == [] then []
    else
      var last := exchanges[|exchanges| - 1];
      Flatten(exchanges[..|exchanges| - 1]) + [Message(Assistant, last.reply), Message(User, last.feedback)]
  }

  function Records(exchanges: seq<Exchange>): (rs: seq<ToolRecord>)
    ensures |rs| == |exchanges|
  {
    if exchanges == [] then []
    else Records(exchanges[..|exchanges| - 1]) + [exchanges[|exchanges| - 1].record]
  }

  /** The tool calls requested. */
  function Requests(exchanges: seq<Exchange>): (calls: seq<ToolCall>)
    ensures |calls| == |exchanges|
  {
    if exchanges == [] then []
    else Requests(exchanges[..|exchanges| - 1]) + [exchanges[|exchanges| - 1].call]
  }

  /** The transcript before model call k. */
  function TranscriptAt(initial: seq<Message>, exchanges: seq<Exchange>, k: nat): seq<Message>
    requires k <= |exchanges|
  {
    initial + Flatten(exchanges[..k])
  }

  /** The prompts of the rounds. */
  function RoundPrompts(initial: seq<Message>, exchanges: seq<Exchange>): (prompts: seq<seq<Message>>)
    ensures |prompts| == |exchanges|
  {
    if exchanges == [] then []
    else
      var n := |exchanges| - 1;
      RoundPrompts(initial, exchanges[..n]) + [initial + Flatten(exchanges[..n])]
  }

  /** Every prompt of the turn: one per round, and the last, which is the final transcript. */
  function Prompts(initial: seq<Message>, t: Turn): seq<seq<Message>> {
    RoundPrompts(initial, t.exchanges) + [t.messages]
  }

  /** Round k: the model, shown the transcript so far, named a tool, and the tool ran. */
  ghost predicate IsRound(w: World, initial: seq<Message>, exchanges: seq<Exchange>, k: nat)
    requires k < |exchanges|
  {
    var e := exchanges[k];
    && w.llm(k, TranscriptAt(initial, exchanges, k)) == Replied(e.reply)
    && ParseResponse(w.decode, e.reply).1 == Some(e.call)
    && e.record == RecordOf(e.call, w.tools(k, e.call))
    && e.feedback == FeedbackOf(w, e.call, w.tools(k, e.call))
  }

  function Limit(maxIterations: int): nat { if maxIterations < 0 then 0 else maxIterations }

  /** final_answer or response.strip() */
  function ForcedAnswer(decode: Decoder, reply: string): string {
    var final := ParseResponse(decode, reply).0;
    if final.Some? && final.value != "" then final.value else Strip(reply)
  }

  const NO_FINAL_ANSWER := "Unable to generate a final answer."

  function ReplyOrDefault(outcome: LlmOutcome): string {
    match outcome case Replied(r) => r case Unavailable(_) => NO_FINAL_ANSWER
  }

  /** How the turn ends after its rounds. */
  ghost predicate EndsProperly(w: World, initial: seq<Message>, maxIterations: int, t: Turn) {
    var k := |t.exchanges|;
    var transcript := initial + Flatten(t.exchanges);
    match t.exit
    case Answered =>
      && k < Limit(maxIterations) && t.messages == transcript
      && w.llm(k, transcript).Replied?
      && ParseResponse(w.decode, w.llm(k, transcript).text).0 == Some(t.result.answer)
      && t.result.iterations == k + 1
    case ModelUnavailable =>
      && k < Limit(maxIterations) && t.messages == transcript
      && w.llm(k, transcript).Unavailable?
      && t.result.answer == "AI provider unavailable: " + w.llm(k, transcript).message
      && t.result.iterations == k
    case Forced =>
      && k == Limit(maxIterations) && t.messages == transcript + [LIMIT_MESSAGE]
      && t.result.answer == ForcedAnswer(w.decode, ReplyOrDefault(w.llm(k, t.messages)))
      && t.result.iterations == maxIterations
  }

  ghost predicate AllRounds(w: World, initial: seq<Message>, exchanges: seq<Exchange>) {
    forall k :: 0 <= k < |exchanges| ==> IsRound(w, initial, exchanges, k)
  }

  ghost predicate IsTurn(w: World, initial: seq<Message>, maxIterations: int, t: Turn) {
    && |t.exchanges| <= Limit(maxIterations)
    && AllRounds(w, initial, t.exchanges)
    && EndsProperly(w, initial, maxIterations, t)
    && t.result.toolCalls == Records(t.exchanges)
  }

  // ---------- The loop ----------

  lemma RoundsExtend(w: World, initial: seq<Message>, exchanges: seq<Exchange>, e: Exchange, k: nat)
    requires k < |exchanges| && IsRound(w, initial, exchanges, k)
    ensures IsRound(w, initial, exchanges + [e], k)
  {
    assert (exchanges + [e])[..k] == exchanges[..k];
  }

  lemma ExchangesAppend(initial: seq<Message>, exchanges: seq<Exchange>, e: Exchange)
    ensures Flatten(exchanges + [e]) == Flatten(exchanges) + [Message(Assistant, e.reply), Message(User, e.feedback)]
    ensures Records(exchanges + [e]) == Records(exchanges) + [e.record]
    ensures Requests(exchanges + [e]) == Requests(exchanges) + [e.call]
    ensures RoundPrompts(initial, exchanges + [e]) == RoundPrompts(initial, exchanges) + [initial + Flatten(exchanges)]
    ensures (exchanges + [e])[..|exchanges|] == exchanges
  {
    assert (exchanges + [e])[..|exchanges|] == exchanges;
  }

  /** The loop's variables after some rounds: transcript, records, and what was sent and
      requested since the turn began. */
  ghost predicate Progress(w: World, initial: seq<Message>, exchanges: seq<Exchange>, messages: seq<Message>,
                           toolCalls: seq<ToolRecord>, prompts: seq<seq<Message>>, requests: seq<ToolCall>)
  {
    && AllRounds(w, initial, exchanges)
    && messages == initial + Flatten(exchanges) && toolCalls == Records(exchanges)
    && prompts == RoundPrompts(initial, exchanges) && requests == Requests(exchanges)
  }

  lemma Begins(w: World, initial: seq<Message>)
    ensures Progress(w, initial, [], initial, [], [], [])
  {
    assert initial + Flatten([]) == initial;
  }

  /** One more round. */
  lemma Continues(w: World, initial: seq<Message>, exchanges: seq<Exchange>, messages: seq<Message>,
                  toolCalls: seq<ToolRecord>, prompts: seq<seq<Message>>, requests: seq<ToolCall>, e: Exchange)
    requires Progress(w, initial, exchanges, messages, toolCalls, prompts, requests)
    requires w.llm(|exchanges|, messages) == Replied(e.reply)
    requires ParseResponse(w.decode, e.reply).1 == Some(e.call)
    requires e.record == RecordOf(e.call, w.tools(|exchanges|, e.call))
    requires e.feedback == FeedbackOf(w, e.call, w.tools(|exchanges|, e.call))
    ensures Progress(w, initial, exchanges + [e],
                     messages + [Message(Assistant, e.reply)] + [Message(User, e.feedback)],
                     toolCalls + [e.record], prompts + [messages], requests + [e.call])
  {
    hide ParseResponse, RecordOf, FeedbackOf;
    ExchangesAppend(initial, exchanges, e);
    forall k | 0 <= k < |exchanges|
      ensures IsRound(w, initial, exchanges + [e], k)
    {
      RoundsExtend(w, initial, exchanges, e, k);
    }
    assert messages + [Message(Assistant, e.reply)] + [Message(User, e.feedback)] ==
           initial + (Flatten(exchanges) + [Message(Assistant, e.reply), Message(User, e.feedback)]);
  }

  /** What RunTurn leaves behind: the result of a turn, and that turn's prompts and tool
      requests, each made once and in order. */
  ghost predicate Ran(w: World, initial: seq<Message>, maxIterations: int, t: Turn,
                      result: TurnResult, prompts: seq<seq<Message>>, requests: seq<ToolCall>)
  {
    && IsTurn(w, initial, maxIterations, t) && t.result == result
    && prompts == Prompts(initial, t) && requests == Requests(t.exchanges)
  }

  /** The three exits of the loop. */
  lemma Exits(w: World, initial: seq<Message>, maxIterations: int, exchanges: seq<Exchange>, messages: seq<Message>,
              toolCalls: seq<ToolRecord>, prompts: seq<seq<Message>>, requests: seq<ToolCall>, exit: Exit,
              sent: seq<Message>, answer: string, iterations: int)
    requires Progress(w, initial, exchanges, messages, toolCalls, prompts, requests)
    requires sent == if exit.Forced? then messages + [LIMIT_MESSAGE] else messages
    requires |exchanges| <= Limit(maxIterations) && (exit.Forced? <==> |exchanges| == Limit(maxIterations))
    requires var outcome := w.llm(|exchanges|, sent);
             match exit
             case Answered =>
               && outcome.Replied? && ParseResponse(w.decode, outcome.text).0 == Some(answer)
               && iterations == |exchanges| + 1
             case ModelUnavailable =>
               && outcome.Unavailable? && answer == "AI provider unavailable: " + outcome.message
               && iterations == |exchanges|
             case Forced =>
               answer == ForcedAnswer(w.decode, ReplyOrDefault(outcome)) && iterations == maxIterations
    ensures Ran(w, initial, maxIterations, Turn(exchanges, exit, TurnResult(answer, toolCalls, iterations), sent),
                TurnResult(answer, toolCalls, iterations), prompts + [sent], requests)
  {
    hide ParseResponse, ForcedAnswer, AllRounds, Flatten, Records, Requests, RoundPrompts;
  }

  lemma SinceThen<T>(s: seq<T>, before: seq<T>, x: T)
    requires before <= s
    ensures before <= s + [x] && (s + [x])[|before|..] == s[|before|..] + [x]
  {
  }

  /** The result is that of the (unique) turn of this model and these tools, and nothing but
      that turn's prompts were sent and its tool calls requested. */
  method RunTurn(backend: Backend, initial: seq<Message>, maxIterations: int) returns (result: TurnResult)
    modifies backend
    ensures old(backend.prompts) <= backend.prompts && old(backend.requests) <= backend.requests
    ensures exists turn ::
              Ran(backend.world.From(|old(backend.prompts)|, |old(backend.requests)|), initial, maxIterations, turn,
                  result, backend.prompts[|old(backend.prompts)|..], backend.requests[|old(backend.requests)|..])
  {
    hide ParseResponse, RecordOf, FeedbackOf, ForcedAnswer, Progress, Ran;
    ghost var sent, requested := backend.prompts, backend.requests;
    ghost var w := backend.world.From(|sent|, |requested|);
    var messages := initial;
    var toolCalls: seq<ToolRecord> := [];
    ghost var exchanges: seq<Exchange> := [];
    Begins(w, initial);
    assert backend.prompts[|sent|..] == [] && backend.requests[|requested|..] == [];
    var iteration := 0;
    while iteration < maxIterations
      invariant 0 <= iteration <= Limit(maxIterations) && |exchanges| == iteration
      invariant sent <= backend.prompts && |backend.prompts| == |sent| + iteration
      invariant requested <= backend.requests && |backend.requests| == |requested| + iteration
      invariant Progress(w, initial, exchanges, messages, toolCalls, backend.prompts[|sent|..],
                         backend.requests[|requested|..])
    {
      ghost var prompts, requests := backend.prompts[|sent|..], backend.requests[|requested|..];
      SinceThen(backend.prompts, sent, messages);
      var outcome := backend.Chat(messages);
      if outcome.Unavailable? {
        result := TurnResult("AI provider unavailable: " + outcome.message, toolCalls, iteration);
        Exits(w, initial, maxIterations, exchanges, messages, toolCalls, prompts, requests, ModelUnavailable,
              messages, result.answer, iteration);
        return;
      }
      var (finalAnswer, toolCall) := ParseResponse(backend.world.decode, outcome.text);
      ParseGivesExactlyOne(backend.world.decode, outcome.text);
      if finalAnswer.Some? {
        result := TurnResult(finalAnswer.value, toolCalls, iteration + 1);
        Exits(w, initial, maxIterations, exchanges, messages, toolCalls, prompts, requests, Answered,
              messages, result.answer, iteration + 1);
        return;
      }
      var call := toolCall.value;
      ghost var before := messages;
      messages := messages + [Message(Assistant, outcome.text)];
      SinceThen(backend.requests, requested, call);
      var ran := backend.Invoke(call);
      var record, feedback := RecordOf(call, ran), FeedbackOf(backend.world, call, ran);
      ghost var e := Exchange(outcome.text, call, record, feedback);
      SameFeedback(backend.world, w, call, ran);
      Continues(w, initial, exchanges, before, toolCalls, prompts, requests, e);
      toolCalls := toolCalls + [record];
      messages := messages + [Message(User, feedback)];
      exchanges := exchanges + [e];
      iteration := iteration + 1;
    }
    ghost var before := messages;
    ghost var prompts, requests := backend.prompts[|sent|..], backend.requests[|requested|..];
    messages := messages + [LIMIT_MESSAGE];
    SinceThen(backend.prompts, sent, messages);
    var outcome := backend.Chat(messages);
    var reply := match outcome case Replied(r) => r case Unavailable(_) => NO_FINAL_ANSWER;
    result := TurnResult(ForcedAnswer(backend.world.decode, reply), toolCalls, maxIterations);
    Exits(w, initial, maxIterations, exchanges, before, toolCalls, prompts, requests, Forced,
          messages, result.answer, maxIterations);
  }

  lemma SameFeedback(v: World, w: World, call: ToolCall, outcome: ToolOutcome)
    requires v.format == w.format
    ensures FeedbackOf(v, call, outcome) == FeedbackOf(w, call, outcome)
  {
  }

  // ---------- What follows for every turn ----------

  lemma {:induction false} SameRounds(w: World, initial: seq<Message>, a: seq<Exchange>, b: seq<Exchange>, k: nat)
    requires k <= |a| && k <= |b|
    requires AllRounds(w, initial, a) && AllRounds(w, initial, b)
    ensures a[..k] == b[..k]
  {
    hide ParseResponse, RecordOf, FeedbackOf;
    if k > 0 {
      SameRounds(w, initial, a, b, k - 1);
      assert IsRound(w, initial, a, k - 1) && IsRound(w, initial, b, k - 1);
      assert a[..k] == a[..k - 1] + [a[k - 1]] && b[..k] == b[..k - 1] + [b[k - 1]];
    }
  }

  /** A turn that goes on for another round cannot end where the other one does. */
  lemma NoEarlierExit(w: World, initial: seq<Message>, maxIterations: int, t: Turn, u: Turn)
    requires IsTurn(w, initial, maxIterations, t) && IsTurn(w, initial, maxIterations, u)
    ensures |t.exchanges| >= |u.exchanges|
  {
    hide ParseResponse, RecordOf, FeedbackOf;
    var k := |t.exchanges|;
    if k < |u.exchanges| {
      SameRounds(w, initial, t.exchanges, u.exchanges, k);
      assert t.exchanges[..k] == t.exchanges;
      assert IsRound(w, initial, u.exchanges, k);
      ParseGivesExactlyOne(w.decode, u.exchanges[k].reply);
    }
  }

  /** The description pins the turn down: given the model and the tools, it is unique. */
  lemma TurnIsDetermined(w: World, initial: seq<Message>, maxIterations: int, t: Turn, u: Turn)
    requires IsTurn(w, initial, maxIterations, t) && IsTurn(w, initial, maxIterations, u)
    ensures t == u
  {
    hide ParseResponse, IsRound;
    NoEarlierExit(w, initial, maxIterations, t, u);
    NoEarlierExit(w, initial, maxIterations, u, t);
    var k := |t.exchanges|;
    SameRounds(w, initial, t.exchanges, u.exchanges, k);
    assert t.exchanges[..k] == t.exchanges && u.exchanges[..k] == u.exchanges;
  }

  lemma {:induction false} FlattenAt(initial: seq<Message>, exchanges: seq<Exchange>, k: nat)
    requires k < |exchanges|
    ensures |Flatten(exchanges)| == 2 * |exchanges|
    ensures Flatten(exchanges)[2 * k] == Message(Assistant, exchanges[k].reply)
    ensures Flatten(exchanges)[2 * k + 1] == Message(User, exchanges[k].feedback)
    ensures Records(exchanges)[k] == exchanges[k].record && Requests(exchanges)[k] == exchanges[k].call
    ensures RoundPrompts(initial, exchanges)[k] == initial + Flatten(exchanges)[..2 * k]
  {
    var n := |exchanges| - 1;
    var front := exchanges[..n];
    if n > 0 {
      FlattenAt(initial, front, if k < n then k else 0);
    }
    if k < n {
      assert Flatten(exchanges)[..2 * k] == Flatten(front)[..2 * k];
    } else {
      assert Flatten(exchanges)[..2 * k] == Flatten(front);
    }
  }

  /** The two messages that record k leaves in the transcript: the reply that named the tool
      and its parameters, and the rendering of its outcome. The record says success exactly
      when the tool exists, did not raise and said so; a call that did not get that far is
      rendered as a failure with the recorded error. */
  ghost predicate IsPairOf(w: World, k: nat, asked: Message, told: Message, record: ToolRecord) {
    var call := ToolCall(record.tool, record.params);
    var outcome := w.tools(k, call);
    && asked.role == Assistant && told.role == User
    && ParseResponse(w.decode, asked.content).1 == Some(call)
    && (record.success <==> outcome.Done? && outcome.success)
    && record.error == (match outcome
                        case Unknown(reason) => Some(reason)
                        case Raised => Some("Tool execution error")
                        case Done(_, _, error) => error)
    && told.content == w.format(record.tool, record.success, if outcome.Done? then Some(outcome.data) else None,
                                record.error)
  }

  lemma RoundLeavesItsPair(w: World, initial: seq<Message>, exchanges: seq<Exchange>, k: nat)
    requires k < |exchanges| && IsRound(w, initial, exchanges, k)
    ensures var e := exchanges[k];
            && IsPairOf(w, k, Message(Assistant, e.reply), Message(User, e.feedback), e.record)
            && e.call == ToolCall(e.record.tool, e.record.params)
  {
    hide ParseResponse;
  }

  lemma {:induction false} FlattenLength(exchanges: seq<Exchange>)
    ensures |Flatten(exchanges)| == 2 * |exchanges|
  {
    if exchanges != [] {
      FlattenLength(exchanges[..|exchanges| - 1]);
    }
  }

  /** Record k in the turn: the prompt before it, the call requested, its pair of messages. */
  ghost predicate RecordFollowed(w: World, initial: seq<Message>, t: Turn, k: nat)
    requires k < |t.exchanges| && k < |t.result.toolCalls|
    requires |initial| + 2 * |t.exchanges| <= |t.messages|
  {
    var (record, at) := (t.result.toolCalls[k], |initial| + 2 * k);
    && Prompts(initial, t)[k] == t.messages[..at]
    && Requests(t.exchanges)[k] == ToolCall(record.tool, record.params)
    && IsPairOf(w, k, t.messages[at], t.messages[at + 1], record)
  }

  lemma RecordIsFollowed(w: World, initial: seq<Message>, maxIterations: int, t: Turn, k: nat)
    requires IsTurn(w, initial, maxIterations, t) && k < |t.exchanges|
    requires |initial| + 2 * |t.exchanges| <= |t.messages|
    ensures RecordFollowed(w, initial, t, k)
  {
    hide EndsProperly, ParseResponse, IsRound, IsPairOf, RoundPrompts, Requests, Records, Flatten;
    var pairs := Flatten(t.exchanges);
    FlattenAt(initial, t.exchanges, k);
    RoundLeavesItsPair(w, initial, t.exchanges, k);
    StartsWithTheRounds(w, initial, maxIterations, t);
    var at := |initial| + 2 * k;
    assert t.messages[..at] == initial + pairs[..2 * k];
    assert t.messages[at] == pairs[2 * k] && t.messages[at + 1] == pairs[2 * k + 1];
  }

  lemma StartsWithTheRounds(w: World, initial: seq<Message>, maxIterations: int, t: Turn)
    requires IsTurn(w, initial, maxIterations, t)
    ensures initial + Flatten(t.exchanges) <= t.messages
  {
    hide AllRounds, Flatten, Records;
  }

  /** On every exit the transcript is the initial messages, then for each tool-call record in
      order the pair of messages that belongs to it, then the limit message if forced. The
      model was asked once per record and once more, each time shown the transcript up to that
      pair; and exactly the recorded tool calls were requested. */
  lemma TranscriptFollowsTheRecords(w: World, initial: seq<Message>, maxIterations: int, t: Turn)
    requires IsTurn(w, initial, maxIterations, t)
    ensures var (n, m, prompts) := (|t.result.toolCalls|, |initial|, Prompts(initial, t));
            && n <= Limit(maxIterations)
            && |t.messages| == m + 2 * n + (if t.exit.Forced? then 1 else 0)
            && initial <= t.messages
            && (t.exit.Forced? ==>
                  t.messages[m + 2 * n] ==
                  Message(User, "You have reached the tool call limit. Provide your ANSWER: now."))
            && |prompts| == n + 1 && prompts[n] == t.messages
            && |Requests(t.exchanges)| == n
            && forall k :: 0 <= k < n ==> RecordFollowed(w, initial, t, k)
  {
    hide ParseResponse, IsRound, IsPairOf, RoundPrompts, Requests, Records, Flatten, AllRounds;
    var (n, m) := (|t.exchanges|, |initial|);
    FlattenLength(t.exchanges);
    forall k | 0 <= k < n
      ensures RecordFollowed(w, initial, t, k)
    {
      RecordIsFollowed(w, initial, maxIterations, t, k);
    }
  }

  lemma FixedReplyIsItsAnswer(decode: Decoder)
    ensures ForcedAnswer(decode, NO_FINAL_ANSWER) == "Unable to generate a final answer."
  {
    FixedReplyIsPlain();
    hide PyText.Strip, ParseResponse;
    PlainTextIsTheAnswer(decode, NO_FINAL_ANSWER);
  }

  lemma FixedReplyIsPlain()
    ensures ':' !in NO_FINAL_ANSWER && Strip(NO_FINAL_ANSWER) == NO_FINAL_ANSWER != ""
  {
    hide PyText.Strip;
    var s := NO_FINAL_ANSWER;
    assert s[0] == 'U' && s[|s| - 1] == '.';
    StripOfTight(s);
  }

  /** How a turn's answer comes about. A reply in the loop that is not a tool call is parsed
      for it. After the limit an unavailable model leads to a fixed text, and of a reply the
      parsed answer counts, or all of it if that is a tool call or blank. */
  lemma TurnEndsAs(w: World, initial: seq<Message>, maxIterations: int, t: Turn)
    requires IsTurn(w, initial, maxIterations, t)
    ensures match w.llm(|t.result.toolCalls|, t.messages)
            case Unavailable(message) =>
              t.result.answer == if t.exit.Forced? then "Unable to generate a final answer."
                                 else "AI provider unavailable: " + message
            case Replied(reply) =>
              var parsed := ParseResponse(w.decode, reply);
              && !t.exit.ModelUnavailable?
              && if t.exit.Answered? then parsed == (Some(t.result.answer), None)
                 else t.result.answer == if parsed.0.Some? && parsed.0.value != "" then parsed.0.value else Strip(reply)
  {
    hide ParseResponse, PyText.Strip, IsRound;
    FixedReplyIsItsAnswer(w.decode);
    match w.llm(|t.exchanges|, t.messages) {
      case Replied(reply) => ParseGivesExactlyOne(w.decode, reply);
      case Unavailable(_) =>
    }
  }

  /** The reported iterations are the tool calls, plus one exactly when an answer was parsed
      inside the loop: true for every turn if and only if the limit is not negative. (The
      agent's own requests allow 1 to 10; a workflow step passes any integer.) */
  lemma IterationsCountToolCallsIff(w: World, initial: seq<Message>, maxIterations: int, t: Turn)
    requires IsTurn(w, initial, maxIterations, t)
    ensures t.result.iterations == |t.result.toolCalls| + (if t.exit.Answered? then 1 else 0) <==> maxIterations >= 0
  {
  }
}
