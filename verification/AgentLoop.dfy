/** One run of the agent over an inbound message (internal/agents/agent.go: handleMessageWith,
    sanitizeTruncatedToolInputs, toolCallKey).  The model is an arbitrary script of replies, tools are
    arbitrary outcomes; the wording of guidance results is left to the script. */
module AgentLoop {
  import opened ToolResultText
  import opened Transcript
  import opened Trimming

  // ----- Replies -----

  datatype ReplyBlock =
    | ReplyText(text: string)
    | ReplyToolUse(id: string, name: string, input: Input)
    | ReplyServerCall(id: string)
    | ReplyServerResult(id: string, corrupt: bool)
    | ReplyThinking(thinking: string, signature: string)
    | ReplyRedacted(data: string)
    | ReplyOther(text: string, raw: string)

  datatype Reply = Reply(content: seq<ReplyBlock>, stop: string)

  const END_TURN := "end_turn"

  function CallIds(bs: seq<ReplyBlock>): seq<string> {
    if bs == [] then []
    else (if bs[0].ReplyToolUse? then [bs[0].id] else []) + CallIds(bs[1..])
  }

  // ----- Truncated tool inputs -----

  const EMPTY_OBJECT := Json("{}", "{}", "{}")

  /** Input that is missing or cut off is stored as the empty object. */
  function RepairInput(input: Input): Input {
    if input.Json? then input else EMPTY_OBJECT
  }

  function RepairBlock(b: ReplyBlock): ReplyBlock {
    if b.ReplyToolUse? then b.(input := RepairInput(b.input)) else b
  }

  function Repair(bs: seq<ReplyBlock>): (r: seq<ReplyBlock>)
    ensures |r| == |bs|
  {
    if bs == [] then [] else [RepairBlock(bs[0])] + Repair(bs[1..])
  }

  function TruncatedIds(bs: seq<ReplyBlock>): set<string> {
    if bs == [] then {}
    else (if bs[0].ReplyToolUse? && bs[0].input.Broken? then {bs[0].id} else {}) + TruncatedIds(bs[1..])
  }

  method SanitizeTruncatedToolInputs(content: seq<ReplyBlock>)
    returns (repaired: seq<ReplyBlock>, truncated: set<string>)
    ensures repaired == Repair(content) && truncated == TruncatedIds(content)
  {
    repaired, truncated := [], {};
    for i := 0 to |content|
      invariant repaired + Repair(content[i..]) == Repair(content)
      invariant truncated + TruncatedIds(content[i..]) == TruncatedIds(content)
    {
      assert content[i..][1..] == content[i + 1..];
      RepairStep(content[i..]);
      var b := content[i];
      if b.ReplyToolUse? {
        if b.input.Empty? {
          b := b.(input := EMPTY_OBJECT);
        } else if b.input.Broken? {
          truncated := truncated + {b.id};
          b := b.(input := EMPTY_OBJECT);
        }
      }
      assert b == RepairBlock(content[i]);
      assert (repaired + [b]) + Repair(content[i + 1..]) == repaired + ([b] + Repair(content[i + 1..]));
      repaired := repaired + [b];
    }
    assert repaired + [] == repaired;
  }

  lemma {:induction false} RepairStep(bs: seq<ReplyBlock>)
    requires bs != []
    ensures Repair(bs) == [RepairBlock(bs[0])] + Repair(bs[1..])
    ensures TruncatedIds(bs) ==
            (if bs[0].ReplyToolUse? && bs[0].input.Broken? then {bs[0].id} else {}) + TruncatedIds(bs[1..])
  {
  }

  // ----- From reply to history (the providers' ToHistoryParam) -----

  datatype Provider = Anthropic | OpenRouter

  function HistoryBlocks(provider: Provider, b: ReplyBlock): seq<Block> {
    match b
    case ReplyText(text) => [Text(text, "", false)]
    case ReplyToolUse(id, name, input) => [ToolUse(id, name, input)]
    case ReplyOther(text, raw) =>
      if raw != "" then [Unknown(raw)] else if provider.Anthropic? then [Text(text, "", false)] else []
    case ReplyServerCall(id) => if provider.Anthropic? then [ServerCall(id, false)] else []
    case ReplyServerResult(id, corrupt) => if provider.Anthropic? then [ServerResult(id, corrupt)] else []
    case ReplyThinking(thinking, signature) => if provider.Anthropic? then [Thinking(thinking, signature)] else []
    case ReplyRedacted(data) => if provider.Anthropic? then [RedactedThinking(data)] else []
  }

  function HistoryContent(provider: Provider, bs: seq<ReplyBlock>): seq<Block> {
    if bs == [] then [] else HistoryBlocks(provider, bs[0]) + HistoryContent(provider, bs[1..])
  }

  /** The OpenRouter provider never stores a message without content. */
  function ToHistoryParam(provider: Provider, bs: seq<ReplyBlock>): Message {
    var content := HistoryContent(provider, bs);
    Turn(ASSISTANT, if content == [] && provider.OpenRouter? then [Text("", "", false)] else content, false)
  }

  // ----- Tool dispatch -----

  /** What happens when a block is dispatched: the tool's result or error, the note naming a spill
      file, and the wording used if the call is answered without running the tool. */
  datatype Outcome = Outcome(failed: bool, text: string, spillNote: string, guidance: string)

  /** An executed call: the input as streamed and as passed on. */
  datatype Call = Call(name: string, streamed: Input, input: Input, failed: bool)

  datatype Config = Config(
    provider: Provider,
    tools: set<string>,
    agents: set<string>,
    maxHistoryChars: int,
    maxResultChars: int,
    spillChars: int)

  function Canonical(input: Input): string {
    match input
    case Empty => ""
    case Json(_, _, canonical) => canonical
    case Broken(raw) => raw
  }

  function CallKey(name: string, input: Input): string {
    name + "\0" + Canonical(input)
  }

  /** `failed` maps the key of every call that failed in this run to its error. */
  datatype Work = Work(failed: map<string, string>, results: seq<Block>, calls: seq<Call>, last: string)

  function NewToolResult(id: string, text: string, isError: bool): Block {
    ToolResult(id, [TextPart(text)], isError)
  }

  function ResultText(cfg: Config, o: Outcome): string {
    Truncate(o.text, cfg.maxResultChars) +
    (if !o.failed && cfg.spillChars > 0 && |o.text| > cfg.spillChars then o.spillNote else "")
  }

  function Dispatch(cfg: Config, truncated: set<string>, b: ReplyBlock, o: Outcome, w: Work): Work {
    match b
    case ReplyText(text) => w.(last := text)
    case ReplyToolUse(id, name, streamed) =>
      var input := RepairInput(streamed);
      var key := CallKey(name, input);
      if id in truncated || name !in cfg.tools || key in w.failed then
        w.(results := w.results + [NewToolResult(id, o.guidance, true)])
      else
        w.(failed := if o.failed then w.failed[key := o.text] else w.failed,
           results := w.results + [NewToolResult(id, ResultText(cfg, o), o.failed)],
           calls := w.calls + [Call(name, streamed, input, o.failed)])
    case _ => w
  }

  function DispatchAll(cfg: Config, truncated: set<string>, bs: seq<ReplyBlock>, os: seq<Outcome>, w: Work): Work
    requires |os| == |bs|
  {
    if bs == [] then w
    else DispatchAll(cfg, truncated, bs[1..], os[1..], Dispatch(cfg, truncated, bs[0], os[0], w))
  }

  // ----- The turn loop -----

  /** A reply comes with one outcome per block, used if that block calls a tool. */
  datatype Answer = Answer(reply: Reply, outcomes: seq<Outcome>)

  type ValidAnswer = a: Answer | |a.outcomes| == |a.reply.content| witness Answer(Reply([], ""), [])

  datatype TurnEvent = Cancelled | ApiFailed | Answered(answer: ValidAnswer)

  datatype Exit = Finished(reply: Reply) | ContextCancelled | ApiError | MaxTurns

  /** `sent` holds the message lists handed to the provider, oldest first. */
  datatype RunState = RunState(history: seq<Message>, sent: seq<seq<Message>>, work: Work)

  function Outgoing(cfg: Config, h: seq<Message>): seq<Message> {
    if cfg.maxHistoryChars > 0 then Trimmed(h, cfg.maxHistoryChars, cfg.agents) else h
  }

  function ResultTurn(results: seq<Block>): seq<Message> {
    if results == [] then [] else [Turn(USER, results, false)]
  }

  /** The state once the reply has been stored and its tool calls dispatched. */
  function AfterReply(cfg: Config, st: RunState, a: ValidAnswer): RunState {
    RunState(
      st.history + [ToHistoryParam(cfg.provider, Repair(a.reply.content))],
      st.sent + [Outgoing(cfg, st.history)],
      DispatchAll(cfg, TruncatedIds(a.reply.content), a.reply.content, a.outcomes, st.work.(results := [])))
  }

  function FeedResults(st: RunState): RunState {
    st.(history := st.history + ResultTurn(st.work.results))
  }

  /** One event per turn of the budget; events after the run has ended are not used. */
  function RunFrom(cfg: Config, st: RunState, events: seq<TurnEvent>): (RunState, Exit)
    decreases |events|
  {
    if events == [] then (st, MaxTurns)
    else
      match events[0]
      case Cancelled => (st, ContextCancelled)
      case ApiFailed => (st.(sent := st.sent + [Outgoing(cfg, st.history)]), ApiError)
      case Answered(a) =>
        var next := AfterReply(cfg, st, a);
        if a.reply.stop == END_TURN then (next, Finished(a.reply))
        else RunFrom(cfg, FeedResults(next), events[1..])
  }

  function Start(h: seq<Message>, email: Message, last: string): RunState {
    RunState(h + [email], [], Work(map[], [], [], last))
  }

  function Run(cfg: Config, h: seq<Message>, email: Message, last: string, events: seq<TurnEvent>): (RunState, Exit) {
    RunFrom(cfg, Start(h, email, last), events)
  }

  class Agent {
    var history: seq<Message>
    var lastResponse: string

    constructor ()
      ensures history == [] && lastResponse == ""
    {
      history, lastResponse := [], "";
    }

    method SetHistory(h: seq<Message>)
      modifies this
      ensures history == h && lastResponse == old(lastResponse)
    {
      history := h;
    }

    method ClearHistory()
      modifies this
      ensures history == [] && lastResponse == ""
    {
      history, lastResponse := [], "";
    }

    /** Dispatch the blocks of one reply; `failed` is the run's record of failed calls. */
    method ProcessReply(cfg: Config, a: ValidAnswer, truncated: set<string>, content: seq<ReplyBlock>,
                        failed: map<string, string>, ghost calls: seq<Call>)
      returns (failed': map<string, string>, toolResults: seq<Block>, ghost calls': seq<Call>)
      requires content == Repair(a.reply.content)
      modifies this
      ensures history == old(history)
      ensures Work(failed', toolResults, calls', lastResponse) ==
              DispatchAll(cfg, truncated, a.reply.content, a.outcomes, Work(failed, [], calls, old(lastResponse)))
    {
      failed', toolResults, calls' := failed, [], calls;
      ghost var streamed, os := a.reply.content, a.outcomes;
      ghost var whole := DispatchAll(cfg, truncated, streamed, os, Work(failed, [], calls, lastResponse));
      for i := 0 to |content|
        invariant history == old(history)
        invariant DispatchAll(cfg, truncated, streamed[i..], os[i..],
                              Work(failed', toolResults, calls', lastResponse)) == whole
      {
        assert streamed[i..][1..] == streamed[i + 1..] && os[i..][1..] == os[i + 1..];
        RepairPointwise(streamed, i);
        var b := content[i];
        var outcome := a.outcomes[i];
        match b {
          case ReplyText(text) =>
            lastResponse := text;
          case ReplyToolUse(id, name, input) =>
            if id in truncated {
              toolResults := toolResults + [NewToolResult(id, outcome.guidance, true)];
              continue;
            }
            if name !in cfg.tools {
              toolResults := toolResults + [NewToolResult(id, outcome.guidance, true)];
              continue;
            }
            var key := CallKey(name, input);
            if key in failed' {
              toolResults := toolResults + [NewToolResult(id, outcome.guidance, true)];
              continue;
            }
            calls' := calls' + [Call(name, streamed[i].input, input, outcome.failed)];
            if outcome.failed {
              failed' := failed'[key := outcome.text];
            }
            var original := |outcome.text|;
            var spilled := !outcome.failed && cfg.spillChars > 0 && original > cfg.spillChars;
            var result := TruncateToolResult(outcome.text, cfg.maxResultChars);
            result := result + if spilled then outcome.spillNote else "";
            toolResults := toolResults + [NewToolResult(id, result, outcome.failed)];
          case _ =>
        }
      }
    }

    method HandleMessage(cfg: Config, email: Message, events: seq<TurnEvent>)
      returns (exit: Exit, ghost sent: seq<seq<Message>>, ghost calls: seq<Call>)
      modifies this
      ensures var (st, e) := Run(cfg, old(history), email, old(lastResponse), events);
              && exit == e && history == st.history && lastResponse == st.work.last
              && sent == st.sent && calls == st.work.calls
    {
      ghost var whole := Run(cfg, history, email, lastResponse, events);
      history := history + [email];
      sent, calls := [], [];
      var failedCalls: map<string, string> := map[];
      ghost var results: seq<Block> := [];
      for turn := 0 to |events|
        invariant RunFrom(cfg, RunState(history, sent, Work(failedCalls, results, calls, lastResponse)),
                          events[turn..]) == whole
      {
        assert events[turn..][1..] == events[turn + 1..];
        if events[turn].Cancelled? {
          return ContextCancelled, sent, calls;
        }
        var outgoing := history;
        if cfg.maxHistoryChars > 0 {
          outgoing := TrimHistory(history, cfg.maxHistoryChars, cfg.agents);
        }
        sent := sent + [outgoing];
        if events[turn].ApiFailed? {
          return ApiError, sent, calls;
        }
        var a := events[turn].answer;
        var content, truncated := SanitizeTruncatedToolInputs(a.reply.content);
        history := history + [ToHistoryParam(cfg.provider, content)];
        var toolResults;
        failedCalls, toolResults, calls := ProcessReply(cfg, a, truncated, content, failedCalls, calls);
        if a.reply.stop == END_TURN {
          return Finished(a.reply), sent, calls;
        }
        results := toolResults;
        if |toolResults| > 0 {
          history := history + [Turn(USER, toolResults, false)];
        } else {
          assert history + [] == history;
        }
      }
      return MaxTurns, sent, calls;
    }
  }

  lemma {:induction false} RepairPointwise(bs: seq<ReplyBlock>, i: nat)
    requires i < |bs|
    ensures Repair(bs)[i] == RepairBlock(bs[i])
  {
    if i > 0 {
      RepairPointwise(bs[1..], i - 1);
    }
  }

  // ----- Every call is answered -----

  lemma {:induction false} UseIdsAppend(a: seq<Block>, b: seq<Block>)
    ensures UseIds(a + b) == UseIds(a) + UseIds(b)
    ensures ResultIds(a + b) == ResultIds(a) + ResultIds(b)
  {
    hide *;
    if a == [] {
      NoIdsInNothing();
      assert a + b == b;
    } else {
      var x, rest := a[0], a[1..];
      UseIdsAppend(rest, b);
      IdsCons(x, rest);
      IdsCons(x, rest + b);
      assert [x] + rest == a && [x] + (rest + b) == a + b;
    }
  }

  lemma {:induction false} NoIdsInNothing()
    ensures UseIds([]) == [] && ResultIds([]) == []
  {
  }

  lemma {:induction false} IdsCons(x: Block, rest: seq<Block>)
    ensures UseIds([x] + rest) == (if x.ToolUse? then [x.id] else []) + UseIds(rest)
    ensures ResultIds([x] + rest) == (if x.ToolResult? then [x.id] else []) + ResultIds(rest)
  {
    assert ([x] + rest)[1..] == rest;
  }

  lemma {:induction false} HistoryBlocksCarryCalls(provider: Provider, b: ReplyBlock)
    ensures UseIds(HistoryBlocks(provider, b)) == if b.ReplyToolUse? then [b.id] else []
    ensures ResultIds(HistoryBlocks(provider, b)) == []
  {
    var bs := HistoryBlocks(provider, b);
    assert bs != [] ==> bs[1..] == [];
  }

  /** The stored assistant turn carries exactly the calls of the reply, for either provider. */
  lemma {:induction false} HistoryCarriesCalls(provider: Provider, bs: seq<ReplyBlock>)
    ensures UseIds(HistoryContent(provider, Repair(bs))) == CallIds(bs)
    ensures ResultIds(HistoryContent(provider, Repair(bs))) == []
  {
    if bs != [] {
      HistoryCarriesCalls(provider, bs[1..]);
      assert Repair(bs)[1..] == Repair(bs[1..]);
      HistoryBlocksCarryCalls(provider, RepairBlock(bs[0]));
      UseIdsAppend(HistoryBlocks(provider, RepairBlock(bs[0])), HistoryContent(provider, Repair(bs[1..])));
    }
  }

  lemma {:induction false} AssistantTurn(provider: Provider, bs: seq<ReplyBlock>)
    ensures var m := ToHistoryParam(provider, Repair(bs));
            Uses(m) == multiset(CallIds(bs)) && Results(m) == multiset{} && Disciplined(m)
  {
    HistoryCarriesCalls(provider, bs);
    var filler := [Text("", "", false)];
    assert filler[1..] == [];
    assert UseIds(filler) == [] && ResultIds(filler) == [];
  }

  /** One result per call of the reply, in order, whatever path answered it. */
  lemma {:induction false} DispatchAnswers(cfg: Config, truncated: set<string>, bs: seq<ReplyBlock>, os: seq<Outcome>,
                                           w: Work)
    requires |os| == |bs|
    ensures ResultIds(DispatchAll(cfg, truncated, bs, os, w).results) == ResultIds(w.results) + CallIds(bs)
    ensures UseIds(DispatchAll(cfg, truncated, bs, os, w).results) == UseIds(w.results)
  {
    if bs != [] {
      var v := Dispatch(cfg, truncated, bs[0], os[0], w);
      DispatchAnswers(cfg, truncated, bs[1..], os[1..], v);
      OneAnswer(cfg, truncated, bs[0], os[0], w);
    }
  }

  lemma {:induction false} OneAnswer(cfg: Config, truncated: set<string>, b: ReplyBlock, o: Outcome, w: Work)
    ensures ResultIds(Dispatch(cfg, truncated, b, o, w).results)
         == ResultIds(w.results) + (if b.ReplyToolUse? then [b.id] else [])
    ensures UseIds(Dispatch(cfg, truncated, b, o, w).results) == UseIds(w.results)
  {
    var v := Dispatch(cfg, truncated, b, o, w);
    if b.ReplyToolUse? {
      var r := v.results[|w.results|];
      assert v.results == w.results + [r] && r.ToolResult? && r.id == b.id;
      UseIdsAppend(w.results, [r]);
      IdsCons(r, []);
      assert [r] + [] == [r];
    }
  }

  lemma {:induction false} ClosedAppend(h: seq<Message>, m: Message)
    requires Closed(h) && Disciplined(m) && Results(m) == multiset{}
    ensures WellPaired(h + [m]) && OpenAfter(multiset{}, h + [m]) == Uses(m)
  {
    PairedAppend(multiset{}, h, [m]);
    PairedCons(multiset{}, m, []);
    assert [m] + [] == [m];
  }

  /** A plain user turn may follow a well-paired history exactly when nothing is left open. */
  lemma {:induction false} PlainTurnFits(h: seq<Message>, email: Message)
    requires WellPaired(h) && SafeCut(email) && Uses(email) == multiset{}
    ensures WellPaired(h + [email]) <==> Closed(h)
    ensures Closed(h) ==> Closed(h + [email])
  {
    PairedAppend(multiset{}, h, [email]);
    PairedCons(OpenAfter(multiset{}, h), email, []);
    assert [email] + [] == [email];
  }

  lemma {:induction false} ReplyHistory(cfg: Config, st: RunState, a: ValidAnswer)
    requires Closed(st.history)
    ensures WellPaired(AfterReply(cfg, st, a).history)
    ensures OpenAfter(multiset{}, AfterReply(cfg, st, a).history) == multiset(CallIds(a.reply.content))
    ensures ResultIds(AfterReply(cfg, st, a).work.results) == CallIds(a.reply.content)
    ensures UseIds(AfterReply(cfg, st, a).work.results) == []
  {
    var bs := a.reply.content;
    AssistantTurn(cfg.provider, bs);
    ClosedAppend(st.history, ToHistoryParam(cfg.provider, Repair(bs)));
    DispatchAnswers(cfg, TruncatedIds(bs), bs, a.outcomes, st.work.(results := []));
  }

  /** A turn of results closes a history whose open calls they answer. */
  lemma {:induction false} ResultTurnCloses(h: seq<Message>, results: seq<Block>)
    requires WellPaired(h) && multiset(ResultIds(results)) == OpenAfter(multiset{}, h) && UseIds(results) == []
    ensures Closed(h + ResultTurn(results))
  {
    if results == [] {
      assert h + [] == h;
    } else {
      var u := Turn(USER, results, false);
      PairedAppend(multiset{}, h, [u]);
      PairedCons(OpenAfter(multiset{}, h), u, []);
      assert [u] + [] == [u];
    }
  }

  /** A list that may be handed to the provider: well paired, nothing open, starting with a plain
      user turn. */
  predicate Sendable(h: seq<Message>) {
    Closed(h) && h != [] && SafeCut(h[0])
  }

  predicate AllSendable(lists: seq<seq<Message>>) {
    forall i :: 0 <= i < |lists| ==> Sendable(lists[i])
  }

  lemma {:induction false} OutgoingIsSendable(cfg: Config, h: seq<Message>)
    requires Sendable(h)
    ensures Sendable(Outgoing(cfg, h))
  {
    TrimKeepsPairing(h, cfg.maxHistoryChars, cfg.agents);
  }

  lemma {:induction false} OneMoreSent(cfg: Config, st: RunState)
    requires Sendable(st.history) && AllSendable(st.sent)
    ensures AllSendable(st.sent + [Outgoing(cfg, st.history)])
  {
    OutgoingIsSendable(cfg, st.history);
  }

  /** The history a run leaves behind; the calls of an end_turn reply stay open. */
  predicate EndsPaired(h: seq<Message>, exit: Exit) {
    && WellPaired(h) && h != [] && SafeCut(h[0])
    && OpenAfter(multiset{}, h) == if exit.Finished? then multiset(CallIds(exit.reply.content)) else multiset{}
  }

  lemma {:induction false} TurnKeepsPairing(cfg: Config, st: RunState, a: ValidAnswer)
    requires Sendable(st.history) && AllSendable(st.sent)
    ensures EndsPaired(AfterReply(cfg, st, a).history, Finished(a.reply))
    ensures AllSendable(AfterReply(cfg, st, a).sent)
    ensures Sendable(FeedResults(AfterReply(cfg, st, a)).history)
  {
    OneMoreSent(cfg, st);
    ReplyHistory(cfg, st, a);
    var next := AfterReply(cfg, st, a);
    ResultTurnCloses(next.history, next.work.results);
  }

  /** What holds at the end of a run. */
  predicate GoodEnd(end: (RunState, Exit)) {
    AllSendable(end.0.sent) && EndsPaired(end.0.history, end.1)
  }

  lemma {:induction false} StopsGood(cfg: Config, st: RunState, event: TurnEvent)
    requires Sendable(st.history) && AllSendable(st.sent)
    ensures GoodEnd((st, MaxTurns)) && GoodEnd((st, ContextCancelled))
    ensures GoodEnd((st.(sent := st.sent + [Outgoing(cfg, st.history)]), ApiError))
    ensures event.Answered? ==> GoodEnd((AfterReply(cfg, st, event.answer), Finished(event.answer.reply)))
  {
    OneMoreSent(cfg, st);
    if event.Answered? {
      TurnKeepsPairing(cfg, st, event.answer);
    }
  }

  lemma {:induction false} RunFromKeepsPairing(cfg: Config, st: RunState, events: seq<TurnEvent>)
    requires Sendable(st.history) && AllSendable(st.sent)
    ensures GoodEnd(RunFrom(cfg, st, events))
    decreases |events|
  {
    if RunsOn(events) {
      TurnKeepsPairing(cfg, st, events[0].answer);
      RunFromKeepsPairing(cfg, FeedResults(AfterReply(cfg, st, events[0].answer)), events[1..]);
      RunContinues(cfg, st, events);
    } else {
      RunStopsGood(cfg, st, events);
    }
  }

  predicate RunsOn(events: seq<TurnEvent>) {
    events != [] && events[0].Answered? && events[0].answer.reply.stop != END_TURN
  }

  lemma {:induction false} RunContinues(cfg: Config, st: RunState, events: seq<TurnEvent>)
    requires RunsOn(events)
    ensures RunFrom(cfg, st, events) == RunFrom(cfg, FeedResults(AfterReply(cfg, st, events[0].answer)), events[1..])
  {
  }

  lemma {:induction false} RunStopsGood(cfg: Config, st: RunState, events: seq<TurnEvent>)
    requires Sendable(st.history) && AllSendable(st.sent) && !RunsOn(events)
    ensures GoodEnd(RunFrom(cfg, st, events))
  {
    StopsGood(cfg, st, if events == [] then Cancelled else events[0]);
  }

  predicate PlainUserTurn(m: Message) {
    SafeCut(m) && Uses(m) == multiset{}
  }

  /** Within one run every list handed to the provider is sendable, and the history left behind is
      closed exactly unless the run ended on an end_turn reply that still carries tool calls. */
  lemma {:induction false} RunKeepsPairing(cfg: Config, h: seq<Message>, email: Message, last: string,
                                           events: seq<TurnEvent>)
    requires Closed(h) && Led(h) && PlainUserTurn(email)
    ensures var (end, exit) := Run(cfg, h, email, last, events);
            && AllSendable(end.sent)
            && WellPaired(end.history) && Led(end.history)
            && (Closed(end.history) <==> !(exit.Finished? && CallIds(exit.reply.content) != []))
  {
    PlainTurnFits(h, email);
    RunFromKeepsPairing(cfg, Start(h, email, last), events);
    var (end, exit) := Run(cfg, h, email, last, events);
    if exit.Finished? {
      var ids := CallIds(exit.reply.content);
      assert ids != [] ==> ids[0] in multiset(ids);
    }
  }

  // ----- No failing call is repeated, no truncated call is executed -----

  /** No call follows a failed one with the same name and canonical input; no executed call was cut
      off in the stream; failures are on record. */
  predicate CallsDisciplined(w: Work) {
    && (forall i, j :: 0 <= i < j < |w.calls| && w.calls[i].failed ==>
          CallKey(w.calls[j].name, w.calls[j].input) != CallKey(w.calls[i].name, w.calls[i].input))
    && (forall i :: 0 <= i < |w.calls| && w.calls[i].failed ==>
          CallKey(w.calls[i].name, w.calls[i].input) in w.failed)
    && (forall i :: 0 <= i < |w.calls| ==>
          !w.calls[i].streamed.Broken? && w.calls[i].input == RepairInput(w.calls[i].streamed))
  }

  lemma {:induction false} DispatchKeepsDiscipline(cfg: Config, truncated: set<string>, bs: seq<ReplyBlock>,
                                                   os: seq<Outcome>, w: Work)
    requires |os| == |bs| && CallsDisciplined(w) && TruncatedIds(bs) <= truncated
    ensures CallsDisciplined(DispatchAll(cfg, truncated, bs, os, w))
  {
    if bs != [] {
      DispatchKeepsDiscipline(cfg, truncated, bs[1..], os[1..], Dispatch(cfg, truncated, bs[0], os[0], w));
    }
  }

  /** Every tool call stored in a fresh message has valid JSON input. */
  predicate InputsValid(m: Message) {
    m.Turn? && !m.loaded ==> forall i :: 0 <= i < |m.content| && m.content[i].ToolUse? ==> m.content[i].input.Json?
  }

  lemma {:induction false} RepairedInputsValid(provider: Provider, bs: seq<ReplyBlock>)
    ensures forall i ::
              0 <= i < |HistoryContent(provider, Repair(bs))| && HistoryContent(provider, Repair(bs))[i].ToolUse? ==>
              HistoryContent(provider, Repair(bs))[i].input.Json?
  {
    if bs != [] {
      RepairedInputsValid(provider, bs[1..]);
      assert Repair(bs)[1..] == Repair(bs[1..]);
    }
  }

  lemma {:induction false} DispatchAddsOnlyResults(cfg: Config, truncated: set<string>, bs: seq<ReplyBlock>,
                                                   os: seq<Outcome>, w: Work)
    requires |os| == |bs|
    requires forall i :: 0 <= i < |w.results| ==> w.results[i].ToolResult?
    ensures forall i :: 0 <= i < |DispatchAll(cfg, truncated, bs, os, w).results| ==>
              DispatchAll(cfg, truncated, bs, os, w).results[i].ToolResult?
  {
    if bs != [] {
      DispatchAddsOnlyResults(cfg, truncated, bs[1..], os[1..], Dispatch(cfg, truncated, bs[0], os[0], w));
    }
  }

  predicate AllInputsValid(h: seq<Message>) {
    forall i :: 0 <= i < |h| ==> InputsValid(h[i])
  }

  lemma {:induction false} TurnKeepsDiscipline(cfg: Config, st: RunState, a: ValidAnswer)
    requires CallsDisciplined(st.work) && AllInputsValid(st.history)
    ensures CallsDisciplined(AfterReply(cfg, st, a).work)
    ensures AllInputsValid(AfterReply(cfg, st, a).history)
    ensures AllInputsValid(FeedResults(AfterReply(cfg, st, a)).history)
  {
    var bs := a.reply.content;
    DispatchKeepsDiscipline(cfg, TruncatedIds(bs), bs, a.outcomes, st.work.(results := []));
    RepairedInputsValid(cfg.provider, bs);
    assert InputsValid(ToHistoryParam(cfg.provider, Repair(bs)));
    DispatchAddsOnlyResults(cfg, TruncatedIds(bs), bs, a.outcomes, st.work.(results := []));
    assert InputsValid(Turn(USER, AfterReply(cfg, st, a).work.results, false));
  }

  lemma {:induction false} RunFromKeepsDiscipline(cfg: Config, st: RunState, events: seq<TurnEvent>)
    requires CallsDisciplined(st.work) && AllInputsValid(st.history)
    ensures CallsDisciplined(RunFrom(cfg, st, events).0.work)
    ensures AllInputsValid(RunFrom(cfg, st, events).0.history)
    ensures |RunFrom(cfg, st, events).0.sent| <= |st.sent| + |events|
    decreases |events|
  {
    if events != [] && events[0].Answered? {
      var a := events[0].answer;
      TurnKeepsDiscipline(cfg, st, a);
      if a.reply.stop != END_TURN {
        RunFromKeepsDiscipline(cfg, FeedResults(AfterReply(cfg, st, a)), events[1..]);
      }
    }
  }

  /** Within one run a call that failed is never executed again with the same name and canonical
      input, no call whose streamed input was cut off is executed, every stored tool input is valid
      JSON, and the provider is called at most once per turn of the budget. */
  lemma {:induction false} RunKeepsDiscipline(cfg: Config, h: seq<Message>, email: Message, last: string,
                                              events: seq<TurnEvent>)
    requires InputsValid(email) && AllInputsValid(h)
    ensures var (end, exit) := Run(cfg, h, email, last, events);
            && CallsDisciplined(end.work) && AllInputsValid(end.history) && |end.sent| <= |events|
  {
    RunFromKeepsDiscipline(cfg, Start(h, email, last), events);
  }

  // ----- Where a reply that ends the turn with open calls comes from -----

  /** An OpenRouter completion; calls are (id, name, arguments). */
  datatype Choice = Choice(text: string, calls: seq<(string, string, Input)>, finish: string)

  function StopReason(finish: string): string {
    if finish == "stop" then END_TURN
    else if finish == "tool_calls" then "tool_use"
    else if finish == "length" then "max_tokens"
    else finish
  }

  function CallBlocks(calls: seq<(string, string, Input)>): seq<ReplyBlock> {
    if calls == [] then [] else [ReplyToolUse(calls[0].0, calls[0].1, calls[0].2)] + CallBlocks(calls[1..])
  }

  function ToMessageResponse(choices: seq<Choice>): Reply {
    if choices == [] then Reply([], "")
    else
      var c := choices[0];
      Reply((if c.text != "" then [ReplyText(c.text)] else []) + CallBlocks(c.calls), StopReason(c.finish))
  }

  lemma {:induction false} ChoiceCallIds(calls: seq<(string, string, Input)>, text: string)
    ensures |CallIds(CallBlocks(calls))| == |calls|
    ensures CallIds([ReplyText(text)] + CallBlocks(calls)) == CallIds(CallBlocks(calls))
  {
    assert ([ReplyText(text)] + CallBlocks(calls))[1..] == CallBlocks(calls);
    if calls != [] {
      ChoiceCallIds(calls[1..], text);
      assert CallBlocks(calls)[1..] == CallBlocks(calls[1..]);
    }
  }

  /** A completion ends the run with its calls unanswered exactly when it is marked as a plain stop
      (or already as end_turn) and carries calls; the next plain message then no longer fits. */
  lemma {:induction false} StopWithCallsBreaksPairing(cfg: Config, h: seq<Message>, email: Message, last: string,
                                                      choice: Choice, outcomes: seq<Outcome>, nextEmail: Message)
    requires Closed(h) && Led(h) && PlainUserTurn(email) && PlainUserTurn(nextEmail)
    requires choice.finish == "stop" || choice.finish == END_TURN
    requires |outcomes| == |ToMessageResponse([choice]).content|
    ensures var (end, exit) := Run(cfg, h, email, last, [Answered(Answer(ToMessageResponse([choice]), outcomes))]);
            WellPaired(end.history + [nextEmail]) <==> choice.calls == []
  {
    var reply := ToMessageResponse([choice]);
    var events := [Answered(Answer(reply, outcomes))];
    var (end, exit) := Run(cfg, h, email, last, events);
    ChoiceCallIds(choice.calls, choice.text);
    assert [] + CallBlocks(choice.calls) == CallBlocks(choice.calls);
    assert exit == Finished(reply);
    RunKeepsPairing(cfg, h, email, last, events);
    PlainTurnFits(end.history, nextEmail);
  }
}
