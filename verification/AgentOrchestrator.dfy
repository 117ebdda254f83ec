// A stateful session turn: store the user message, read the windowed history, run the loop,
// then store the tool results and the answer, all in one transaction. And what later turns
// read back.
module AgentOrchestrator {
  import opened Wrappers
  import opened AgentReply
  import opened AgentRuntime
  import opened ConversationMemory

  const MAX_CONTEXT_CHARS: int := 8_000

  /** One turn of a session: the message, the transaction's time and what the loop returned. */
  datatype SessionTurn = SessionTurn(session: nat, tenant: nat, now: int, message: string, result: TurnResult)

  function Question(t: SessionTurn): Stored {
    Stored(t.session, t.tenant, User, t.message, t.now)
  }

  function Answer(t: SessionTurn): Stored {
    Stored(t.session, t.tenant, Assistant, t.result.answer, t.now)
  }

  /** The tool messages a turn leaves behind; the tools' data is not stored. */
  function ToolMessages(w: World, t: SessionTurn, records: seq<ToolRecord>): (r: seq<Stored>)
    ensures |r| == |records|
  {
    if records == [] then []
    else
      var tc := records[|records| - 1];
      ToolMessages(w, t, records[..|records| - 1])
      + [Stored(t.session, t.tenant, Tool, w.format(tc.tool, tc.success, None, tc.error), t.now)]
  }

  /** Everything a turn stores, in the order it does. */
  function Block(w: World, t: SessionTurn): seq<Stored> {
    [Question(t)] + ToolMessages(w, t, t.result.toolCalls) + [Answer(t)]
  }

  lemma {:induction false} ToolMessageAt(w: World, t: SessionTurn, records: seq<ToolRecord>, k: nat)
    requires k < |records|
    ensures ToolMessages(w, t, records)[k] ==
            Stored(t.session, t.tenant, Tool,
                   w.format(records[k].tool, records[k].success, None, records[k].error), t.now)
  {
    if k < |records| - 1 {
      ToolMessageAt(w, t, records[..|records| - 1], k);
    }
  }

  /** What a turn stores, one by one: the question, for each tool-call record its rendering
      without data, and the answer, all under the turn's session, tenant and time. */
  lemma TurnStores(w: World, t: SessionTurn)
    ensures var (n, block) := (|t.result.toolCalls|, Block(w, t));
            && |block| == n + 2
            && block[0] == Stored(t.session, t.tenant, User, t.message, t.now)
            && block[n + 1] == Stored(t.session, t.tenant, Assistant, t.result.answer, t.now)
            && forall k :: 0 <= k < n ==>
                 var record := t.result.toolCalls[k];
                 block[1 + k] == Stored(t.session, t.tenant, Tool,
                                        w.format(record.tool, record.success, None, record.error), t.now)
  {
    hide ToolMessages;
    forall k | 0 <= k < |t.result.toolCalls|
      ensures var record := t.result.toolCalls[k];
              Block(w, t)[1 + k] == Stored(t.session, t.tenant, Tool,
                                           w.format(record.tool, record.success, None, record.error), t.now)
    {
      ToolMessageAt(w, t, t.result.toolCalls, k);
    }
  }

  /** The loop ran on the window of `history`, and these prompts and tool calls are its own. */
  ghost predicate RanOn(w: World, systemPrompt: string, history: seq<Stored>, maxIterations: int,
                        result: TurnResult, prompts: seq<seq<Message>>, requests: seq<ToolCall>)
  {
    exists kept, turn ::
      && IsWindow(kept, history, 8_000)
      && Ran(w, [Message(System, systemPrompt)] + LlmView(kept), maxIterations, turn, result, prompts, requests)
  }

  /** `rows` is the database's answer to the history query, once the user message is stored. */
  method RunInSession(backend: Backend, store: MessageStore, session: nat, tenant: nat, systemPrompt: string,
                      message: string, maxIterations: int, now: int, rows: seq<Stored>)
    returns (result: TurnResult)
    requires IsAnswer(rows, store.messages + [Stored(session, tenant, User, message, now)], session, tenant)
    modifies store, backend
    ensures |old(backend.prompts)| <= |backend.prompts| && |old(backend.requests)| <= |backend.requests|
    ensures RanOn(backend.world.From(|old(backend.prompts)|, |old(backend.requests)|), systemPrompt, rows,
                  maxIterations, result, backend.prompts[|old(backend.prompts)|..],
                  backend.requests[|old(backend.requests)|..])
    ensures store.messages == old(store.messages)
                              + Block(backend.world, SessionTurn(session, tenant, now, message, result))
  {
    hide Ran, IsAnswer, IsWindow, LlmView;
    var memory := new Memory(store, session, tenant);
    memory.AddMessage(User, message, now);
    ghost var base := store.messages;
    var context := memory.ToLlmMessages(rows, Some(MAX_CONTEXT_CHARS));
    result := RunTurn(backend, [Message(System, systemPrompt)] + context, maxIterations);
    ghost var t := SessionTurn(session, tenant, now, message, result);
    for i := 0 to |result.toolCalls|
      modifies store
      invariant store.messages == base + ToolMessages(backend.world, t, result.toolCalls[..i])
    {
      var tc := result.toolCalls[i];
      memory.AddMessage(Tool, backend.world.format(tc.tool, tc.success, None, tc.error), now);
      assert result.toolCalls[..i + 1][..i] == result.toolCalls[..i];
    }
    assert result.toolCalls[..|result.toolCalls|] == result.toolCalls;
    memory.AddMessage(Assistant, result.answer, now);
  }

  // ---------- Runs of turns ----------

  /** The store after some turns, of any sessions, from an empty one. */
  function StoreAfter(w: World, turns: seq<SessionTurn>): seq<Stored> {
    if turns == [] then []
    else StoreAfter(w, turns[..|turns| - 1]) + Block(w, turns[|turns| - 1])
  }

  predicate SameSession(t: SessionTurn, u: SessionTurn) {
    t.session == u.session && t.tenant == u.tenant
  }

  /** The turns of one session are stamped one after another. */
  ghost predicate StampsIncrease(turns: seq<SessionTurn>) {
    forall i, j :: 0 <= i < j < |turns| && SameSession(turns[i], turns[j]) ==> turns[i].now < turns[j].now
  }

  lemma {:induction false} ToolMessagesAreStamped(w: World, t: SessionTurn, records: seq<ToolRecord>)
    ensures forall m :: m in ToolMessages(w, t, records) ==>
              Belongs(m, t.session, t.tenant) && m.createdAt == t.now && m.role == Tool
  {
    if records != [] {
      ToolMessagesAreStamped(w, t, records[..|records| - 1]);
    }
  }

  lemma BlockIsStamped(w: World, t: SessionTurn)
    ensures forall m :: m in Block(w, t) ==> Belongs(m, t.session, t.tenant) && m.createdAt == t.now
    ensures Question(t) in Block(w, t) && Answer(t) in Block(w, t)
  {
    ToolMessagesAreStamped(w, t, t.result.toolCalls);
  }

  lemma {:induction false} MatchingAll(messages: seq<Stored>, session: nat, tenant: nat)
    requires forall i :: 0 <= i < |messages| ==> Belongs(messages[i], session, tenant)
    ensures Matching(messages, session, tenant) == messages
  {
    hide Belongs;
    if messages != [] {
      MatchingAll(messages[..|messages| - 1], session, tenant);
    }
  }

  lemma {:induction false} MatchingNone(messages: seq<Stored>, session: nat, tenant: nat)
    requires forall i :: 0 <= i < |messages| ==> !Belongs(messages[i], session, tenant)
    ensures Matching(messages, session, tenant) == []
  {
    hide Belongs;
    if messages != [] {
      MatchingNone(messages[..|messages| - 1], session, tenant);
    }
  }

  /** A session's messages are the blocks of its turns. */
  lemma MatchingStep(w: World, turns: seq<SessionTurn>, session: nat, tenant: nat)
    requires turns != []
    ensures var (n, last) := (|turns| - 1, turns[|turns| - 1]);
            Matching(StoreAfter(w, turns), session, tenant) ==
            Matching(StoreAfter(w, turns[..n]), session, tenant)
            + if last.session == session && last.tenant == tenant then Block(w, last) else []
  {
    var (n, last) := (|turns| - 1, turns[|turns| - 1]);
    MatchingAppend(StoreAfter(w, turns[..n]), Block(w, last), session, tenant);
    BlockIsStamped(w, last);
    if last.session == session && last.tenant == tenant {
      MatchingAll(Block(w, last), session, tenant);
    } else {
      MatchingNone(Block(w, last), session, tenant);
    }
  }

  /** Every message of a session's history was stored by one of its turns. */
  lemma {:induction false} StoredByATurn(w: World, turns: seq<SessionTurn>, session: nat, tenant: nat, m: Stored)
    requires m in Matching(StoreAfter(w, turns), session, tenant)
    ensures exists i :: 0 <= i < |turns| && turns[i].session == session && turns[i].tenant == tenant
                        && m.createdAt == turns[i].now
  {
    if turns != [] {
      var n := |turns| - 1;
      MatchingStep(w, turns, session, tenant);
      BlockIsStamped(w, turns[n]);
      if m in Matching(StoreAfter(w, turns[..n]), session, tenant) {
        StoredByATurn(w, turns[..n], session, tenant, m);
      }
    }
  }

  /** The history split at turn boundaries: each part holds the messages of one turn of the
      session, in any order. */
  ghost predicate TurnByTurn(w: World, turns: seq<SessionTurn>, session: nat, tenant: nat, rows: seq<Stored>) {
    if turns == [] then rows == []
    else
      var last := turns[|turns| - 1];
      var size := if last.session == session && last.tenant == tenant then |Block(w, last)| else 0;
      && size <= |rows|
      && (size > 0 ==> multiset(rows[|rows| - size..]) == multiset(Block(w, last)))
      && TurnByTurn(w, turns[..|turns| - 1], session, tenant, rows[..|rows| - size])
  }

  /** Main result on order: what the database may answer after a run of turns is exactly the
      turns in order, the messages of each turn in any order. */
  lemma {:induction false} HistoryIsTurnByTurnIff(w: World, turns: seq<SessionTurn>, session: nat, tenant: nat,
                                                  rows: seq<Stored>)
    requires StampsIncrease(turns)
    ensures IsAnswer(rows, StoreAfter(w, turns), session, tenant) <==> TurnByTurn(w, turns, session, tenant, rows)
    decreases |turns|
  {
    hide IsAnswer, Block, StoreAfter, Matching;
    if turns == [] {
      EmptyStoreHasOneAnswer(w, session, tenant, rows);
    } else {
      var n := |turns| - 1;
      var last, earlier := turns[n], turns[..n];
      MatchingStep(w, turns, session, tenant);
      if last.session == session && last.tenant == tenant {
        var size := |Block(w, last)|;
        if IsAnswer(rows, StoreAfter(w, turns), session, tenant) {
          LastTurnComesLast(w, turns, rows);
        }
        if size <= |rows| {
          HistoryIsTurnByTurnIff(w, earlier, session, tenant, rows[..|rows| - size]);
          if IsAnswer(rows[..|rows| - size], StoreAfter(w, earlier), session, tenant)
             && multiset(rows[|rows| - size..]) == multiset(Block(w, last)) {
            AppendedTurnIsAnswer(w, turns, rows);
          }
        }
      } else {
        assert rows[..|rows| - 0] == rows;
        SameMatching(rows, StoreAfter(w, turns), StoreAfter(w, earlier), session, tenant);
        HistoryIsTurnByTurnIff(w, earlier, session, tenant, rows);
      }
    }
  }

  lemma EmptyStoreHasOneAnswer(w: World, session: nat, tenant: nat, rows: seq<Stored>)
    ensures IsAnswer(rows, StoreAfter(w, []), session, tenant) <==> rows == []
  {
    assert |multiset(rows)| == |rows|;
  }

  lemma SameMatching(rows: seq<Stored>, a: seq<Stored>, b: seq<Stored>, session: nat, tenant: nat)
    requires Matching(a, session, tenant) == Matching(b, session, tenant)
    ensures IsAnswer(rows, a, session, tenant) <==> IsAnswer(rows, b, session, tenant)
  {
  }

  lemma OlderThanNext(w: World, turns: seq<SessionTurn>, next: SessionTurn, o: Stored)
    requires StampsIncrease(turns + [next]) && o in Matching(StoreAfter(w, turns), next.session, next.tenant)
    ensures o.createdAt < next.now
  {
    hide Matching, StoreAfter;
    StoredByATurn(w, turns, next.session, next.tenant, o);
    var i :| 0 <= i < |turns| && turns[i].session == next.session && turns[i].tenant == next.tenant
             && o.createdAt == turns[i].now;
    assert (turns + [next])[i] == turns[i] && (turns + [next])[|turns|] == next;
  }

  lemma OlderThanLast(w: World, turns: seq<SessionTurn>, o: Stored)
    requires StampsIncrease(turns) && turns != []
    requires var (n, last) := (|turns| - 1, turns[|turns| - 1]);
             o in multiset(Matching(StoreAfter(w, turns[..n]), last.session, last.tenant))
    ensures o.createdAt < turns[|turns| - 1].now
  {
    hide Matching, StoreAfter, StampsIncrease;
    var (n, last) := (|turns| - 1, turns[|turns| - 1]);
    assert turns == turns[..n] + [last];
    OlderThanNext(w, turns[..n], last, o);
  }

  lemma LastTurnIsNewer(w: World, turns: seq<SessionTurn>)
    requires StampsIncrease(turns) && turns != []
    ensures var (n, last) := (|turns| - 1, turns[|turns| - 1]);
            AllNewer(multiset(Block(w, last)),
                     multiset(Matching(StoreAfter(w, turns[..n]), last.session, last.tenant)))
  {
    hide Matching, StoreAfter, Block, StampsIncrease;
    var (n, last) := (|turns| - 1, turns[|turns| - 1]);
    BlockIsStamped(w, last);
    forall o: Stored, m: Stored
      | o in multiset(Matching(StoreAfter(w, turns[..n]), last.session, last.tenant)) && m in multiset(Block(w, last))
      ensures o.createdAt < m.createdAt
    {
      OlderThanLast(w, turns, o);
      assert m in Block(w, last);
    }
  }

  lemma LastTurnComesLast(w: World, turns: seq<SessionTurn>, rows: seq<Stored>)
    requires StampsIncrease(turns) && turns != []
    requires var last := turns[|turns| - 1]; IsAnswer(rows, StoreAfter(w, turns), last.session, last.tenant)
    ensures var (n, last) := (|turns| - 1, turns[|turns| - 1]);
            var size := |Block(w, last)|;
            && size <= |rows|
            && multiset(rows[|rows| - size..]) == multiset(Block(w, last))
            && IsAnswer(rows[..|rows| - size], StoreAfter(w, turns[..n]), last.session, last.tenant)
  {
    hide StampsIncrease, Block, StoreAfter;
    var (n, last) := (|turns| - 1, turns[|turns| - 1]);
    var older := multiset(Matching(StoreAfter(w, turns[..n]), last.session, last.tenant));
    MatchingStep(w, turns, last.session, last.tenant);
    LastTurnIsNewer(w, turns);
    NewerPartComesLast(rows, older, multiset(Block(w, last)));
  }

  lemma AppendedTurnIsAnswer(w: World, turns: seq<SessionTurn>, rows: seq<Stored>)
    requires StampsIncrease(turns) && turns != []
    requires var (n, last) := (|turns| - 1, turns[|turns| - 1]);
             var size := |Block(w, last)|;
             && size <= |rows|
             && multiset(rows[|rows| - size..]) == multiset(Block(w, last))
             && IsAnswer(rows[..|rows| - size], StoreAfter(w, turns[..n]), last.session, last.tenant)
    ensures var last := turns[|turns| - 1]; IsAnswer(rows, StoreAfter(w, turns), last.session, last.tenant)
  {
    hide StampsIncrease, Block, StoreAfter, Matching, ByTime;
    var (n, last) := (|turns| - 1, turns[|turns| - 1]);
    var cut := |rows| - |Block(w, last)|;
    MatchingStep(w, turns, last.session, last.tenant);
    BlockIsStamped(w, last);
    forall m | m in multiset(rows[..cut])
      ensures m.createdAt <= last.now
    {
      OlderThanLast(w, turns, m);
    }
    forall m | m in multiset(rows[cut..])
      ensures m.createdAt == last.now
    {
      assert m in Block(w, last);
    }
    LaterStampMayFollow(rows, cut, last.now);
  }

  /** So no turn's order is ever determined: whatever the stamps of the turns, some answer
      shows the assistant's message before the question it answered. */
  lemma AnswerMayPrecedeItsQuestion(w: World, turns: seq<SessionTurn>, k: nat)
    returns (rows: seq<Stored>, i: nat, j: nat)
    requires k < |turns|
    ensures IsAnswer(rows, StoreAfter(w, turns), turns[k].session, turns[k].tenant)
    ensures i < j < |rows| && rows[i] == Answer(turns[k]) && rows[j] == Question(turns[k])
  {
    TurnIsStored(w, turns, k);
    rows, i, j := EitherMayComeFirst(StoreAfter(w, turns), Answer(turns[k]), Question(turns[k]));
  }

  lemma {:induction false} TurnIsStored(w: World, turns: seq<SessionTurn>, k: nat)
    requires k < |turns|
    ensures Question(turns[k]) in StoreAfter(w, turns) && Answer(turns[k]) in StoreAfter(w, turns)
  {
    if k < |turns| - 1 {
      TurnIsStored(w, turns[..|turns| - 1], k);
    } else {
      BlockIsStamped(w, turns[k]);
    }
  }

  /** The order in which a session's messages were stored is the only one it can be read back
      in if and only if the session has no turn yet. */
  lemma ChronologicalIffNoTurn(w: World, turns: seq<SessionTurn>, session: nat, tenant: nat)
    ensures (forall r :: IsAnswer(r, StoreAfter(w, turns), session, tenant) ==>
                           r == Matching(StoreAfter(w, turns), session, tenant)) <==>
            (forall i :: 0 <= i < |turns| ==> !(turns[i].session == session && turns[i].tenant == tenant))
  {
    var messages := StoreAfter(w, turns);
    HistoryOrderIsDeterminedIff(messages, session, tenant);
    var m := Matching(messages, session, tenant);
    if i :| 0 <= i < |turns| && turns[i].session == session && turns[i].tenant == tenant {
      TurnIsStored(w, turns, i);
      MatchingMembers(messages, session, tenant, Question(turns[i]));
      MatchingMembers(messages, session, tenant, Answer(turns[i]));
      var q :| 0 <= q < |m| && m[q] == Question(turns[i]);
      var a :| 0 <= a < |m| && m[a] == Answer(turns[i]);
      assert m[q].createdAt == m[a].createdAt && m[q] != m[a];
      assert q < a || a < q;
    } else if m != [] {
      StoredByATurn(w, turns, session, tenant, m[0]);
    }
  }

  /** However the database breaks ties, the message just stored ends the window: it always
      fits, because a request's message has at most 4096 characters. */
  lemma WindowEndsInTheQuestion(w: World, turns: seq<SessionTurn>, next: SessionTurn, rows: seq<Stored>,
                                kept: seq<Stored>)
    requires StampsIncrease(turns + [next]) && |next.message| <= 4_096
    requires IsAnswer(rows, StoreAfter(w, turns) + [Question(next)], next.session, next.tenant)
    requires IsWindow(kept, rows, 8_000)
    ensures |kept| > 0 && LlmView(kept)[|kept| - 1] == Message(User, next.message)
  {
    var user, messages := Question(next), StoreAfter(w, turns) + [Question(next)];
    forall o | o in messages && Belongs(o, next.session, next.tenant) && o != user
      ensures o.createdAt < user.createdAt
    {
      MatchingMembers(StoreAfter(w, turns), next.session, next.tenant, o);
      OlderThanNext(w, turns, next, o);
    }
    NewestComesLast(rows, messages, user);
    var n := |rows|;
    assert rows[n - 1..] == [user];
    assert Joined([user]) == Joined([user][..0]) + user.content == user.content;
    WindowIsTheLongestFittingSuffix(kept, rows, 8_000, 1);
    assert kept[|kept| - 1] == rows[n - 1];
  }

  /** The first prompt of a turn is its initial messages, and the limit message if the turn is
      not allowed a single round. */
  lemma FirstPrompt(w: World, initial: seq<Message>, maxIterations: int, t: Turn, result: TurnResult,
                    prompts: seq<seq<Message>>, requests: seq<ToolCall>)
    requires Ran(w, initial, maxIterations, t, result, prompts, requests)
    ensures prompts != [] && prompts[0] == initial + if maxIterations <= 0 then [LIMIT_MESSAGE] else []
  {
    hide AllRounds, ParseResponse, ForcedAnswer;
    if t.exchanges != [] {
      FlattenAt(initial, t.exchanges, 0);
      assert initial + Flatten(t.exchanges)[..0] == initial + [];
    } else {
      assert initial + [] == initial;
    }
  }

  /** The first prompt is the system prompt, some history and the request's message; a limit
      that allows no round adds the limit message, otherwise nothing follows. */
  ghost predicate FirstAsks(prompts: seq<seq<Message>>, systemPrompt: string, message: string, maxIterations: int) {
    prompts != [] &&
    exists history ::
      && prompts[0] == [Message(System, systemPrompt)] + history + [Message(User, message)]
                       + (if maxIterations <= 0 then [LIMIT_MESSAGE] else [])
      && forall m :: m in history ==> !m.role.Tool?
  }

  /** After any run of turns whose session's stamps increase, whatever turn the next request
      leads to first shows the model the request's message, and shows it last. */
  lemma UserMessageIsShownLast(w: World, turns: seq<SessionTurn>, next: SessionTurn, rows: seq<Stored>,
                               systemPrompt: string, maxIterations: int, sent: nat, requested: nat,
                               prompts: seq<seq<Message>>, requests: seq<ToolCall>)
    requires StampsIncrease(turns + [next]) && |next.message| <= 4_096
    requires IsAnswer(rows, StoreAfter(w, turns) + [Question(next)], next.session, next.tenant)
    ensures RanOn(w.From(sent, requested), systemPrompt, rows, maxIterations, next.result, prompts, requests) ==>
              FirstAsks(prompts, systemPrompt, next.message, maxIterations)
  {
    hide Ran, IsAnswer, IsWindow, StampsIncrease, StoreAfter, LlmView;
    if RanOn(w.From(sent, requested), systemPrompt, rows, maxIterations, next.result, prompts, requests) {
      var kept, turn :| IsWindow(kept, rows, 8_000) &&
                        Ran(w.From(sent, requested), [Message(System, systemPrompt)] + LlmView(kept), maxIterations,
                            turn, next.result, prompts, requests);
      WindowEndsInTheQuestion(w, turns, next, rows, kept);
      FirstPrompt(w.From(sent, requested), [Message(System, systemPrompt)] + LlmView(kept), maxIterations, turn,
                  next.result, prompts, requests);
      var view := LlmView(kept);
      var history := view[..|view| - 1];
      assert view == history + [view[|view| - 1]];
      assert prompts[0] == [Message(System, systemPrompt)] + history + [Message(User, next.message)]
                           + (if maxIterations <= 0 then [LIMIT_MESSAGE] else []);
    }
  }
}
