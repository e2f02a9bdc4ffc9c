/** What a run does turn by turn and block by block: which tool calls are executed, with which input, and what
    the model is told (internal/agents/agent.go: handleMessageWith). */
module AgentTurns {
  import opened AgentLoop
  import opened ToolResultText
  import opened Transcript
  import opened Trimming

  // ----- The key of a failed call -----

  /** An encoder escapes control characters. */
  predicate Encoded(input: Input) {
    input.Json? ==> '\0' !in input.canonical
  }

  predicate EncodedBlocks(bs: seq<ReplyBlock>) {
    forall i :: 0 <= i < |bs| && bs[i].ReplyToolUse? ==> Encoded(bs[i].input)
  }

  lemma {:induction false} SplitAtLast(a: string, x: string, b: string, y: string)
    requires a + "\0" + x == b + "\0" + y && '\0' !in x && '\0' !in y
    ensures a == b && x == y
  {
    var s, t := a + "\0" + x, b + "\0" + y;
    assert s[|a|] == '\0' && t[|b|] == '\0';
    assert forall i :: |a| < i < |s| ==> s[i] == x[i - |a| - 1];
    assert forall i :: |b| < i < |t| ==> t[i] == y[i - |b| - 1];
    assert |a| == |b|;
    assert s[..|a|] == a && t[..|b|] == b;
    assert s[|a| + 1..] == x && t[|b| + 1..] == y;
  }

  /** Two calls share a key exactly if they have the same name and the same canonical input. */
  lemma {:induction false} KeysTellCallsApart(name: string, input: Input, name': string, input': Input)
    requires input.Json? && input'.Json? && Encoded(input) && Encoded(input')
    ensures CallKey(name, input) == CallKey(name', input') <==> name == name' && input.canonical == input'.canonical
  {
    if CallKey(name, input) == CallKey(name', input') {
      SplitAtLast(name, input.canonical, name', input'.canonical);
    }
  }

  // ----- One block -----

  /** The input that reaches a tool: missing input is the empty object. */
  function Passed(input: Input): Input {
    if input.Empty? then Json("{}", "{}", "{}") else input
  }

  /** A call of the reply with this id was cut off in the stream. */
  predicate CutOff(bs: seq<ReplyBlock>, id: string) {
    exists j :: 0 <= j < |bs| && bs[j].ReplyToolUse? && bs[j].id == id && bs[j].input.Broken?
  }

  predicate FailedBefore(calls: seq<Call>, name: string, input: Input) {
    exists k :: 0 <= k < |calls| && calls[k].failed && calls[k].name == name
                && Canonical(calls[k].input) == Canonical(Passed(input))
  }

  /** The tool exists, the call was not cut off, and no call before it failed with the same name and input. */
  predicate IsExecuted(cfg: Config, bs: seq<ReplyBlock>, before: seq<Call>, id: string, name: string, input: Input) {
    !CutOff(bs, id) && name in cfg.tools && !FailedBefore(before, name, input)
  }

  /** The text of a result: the tool's text or error, clamped, and the note on a successful one that was saved
      to a file. */
  function Told(cfg: Config, o: Outcome): string {
    Truncate(o.text, cfg.maxResultChars)
    + if o.failed || cfg.spillChars <= 0 || |o.text| <= cfg.spillChars then "" else o.spillNote
  }

  /** What block i of the reply adds to the calls and results before it. */
  predicate BlockEffect(cfg: Config, bs: seq<ReplyBlock>, i: nat, o: Outcome, v: Work, w: Work)
    requires i < |bs|
  {
    match bs[i]
    case ReplyToolUse(id, name, input) =>
      && w.last == v.last
      && if IsExecuted(cfg, bs, v.calls, id, name, input) then
           && w.calls == v.calls + [Call(name, input, Passed(input), o.failed)]
           && w.results == v.results + [ToolResult(id, [TextPart(Told(cfg, o))], o.failed)]
         else
           && w.calls == v.calls
           && w.results == v.results + [ToolResult(id, [TextPart(o.guidance)], true)]
    case ReplyText(text) => w.last == text && w.calls == v.calls && w.results == v.results
    case _ => w.last == v.last && w.calls == v.calls && w.results == v.results
  }

  /** The record of failures lists exactly the failed calls. */
  ghost predicate Recorded(w: Work) {
    && (forall k :: 0 <= k < |w.calls| ==> w.calls[k].input.Json? && Encoded(w.calls[k].input))
    && (forall k :: 0 <= k < |w.calls| && w.calls[k].failed ==> CallKey(w.calls[k].name, w.calls[k].input) in w.failed)
    && (forall key :: key in w.failed ==> FailedUnder(w.calls, key))
  }

  predicate FailedUnder(calls: seq<Call>, key: string) {
    exists k :: 0 <= k < |calls| && calls[k].failed && CallKey(calls[k].name, calls[k].input) == key
  }

  lemma {:induction false} RecordTellsFailures(w: Work, name: string, input: Input)
    requires Recorded(w) && input.Json? && Encoded(input)
    ensures CallKey(name, input) in w.failed <==> FailedBefore(w.calls, name, input)
  {
    if CallKey(name, input) in w.failed {
      var k :| 0 <= k < |w.calls| && w.calls[k].failed
               && CallKey(w.calls[k].name, w.calls[k].input) == CallKey(name, input);
      KeysTellCallsApart(w.calls[k].name, w.calls[k].input, name, input);
    }
    if FailedBefore(w.calls, name, input) {
      var k :| 0 <= k < |w.calls| && w.calls[k].failed && w.calls[k].name == name
               && Canonical(w.calls[k].input) == Canonical(Passed(input));
      KeysTellCallsApart(w.calls[k].name, w.calls[k].input, name, input);
    }
  }

  lemma {:induction false} CutOffIsTruncated(bs: seq<ReplyBlock>, id: string)
    ensures id in TruncatedIds(bs) <==> CutOff(bs, id)
  {
    if bs != [] {
      CutOffIsTruncated(bs[1..], id);
      if CutOff(bs, id) {
        var j :| 0 <= j < |bs| && bs[j].ReplyToolUse? && bs[j].id == id && bs[j].input.Broken?;
        assert j > 0 ==> bs[1..][j - 1] == bs[j];
      }
      if CutOff(bs[1..], id) {
        var j :| 0 <= j < |bs[1..]| && bs[1..][j].ReplyToolUse? && bs[1..][j].id == id && bs[1..][j].input.Broken?;
        assert bs[j + 1] == bs[1..][j];
      }
    }
  }

  lemma {:induction false} DispatchSnoc(cfg: Config, t: set<string>, bs: seq<ReplyBlock>, os: seq<Outcome>, i: nat,
                                        w: Work)
    requires |os| == |bs| && i < |bs|
    ensures DispatchAll(cfg, t, bs[..i + 1], os[..i + 1], w)
         == Dispatch(cfg, t, bs[i], os[i], DispatchAll(cfg, t, bs[..i], os[..i], w))
  {
    if i == 0 {
      assert bs[..1][1..] == [] && os[..1][1..] == [];
    } else {
      var v := Dispatch(cfg, t, bs[0], os[0], w);
      DispatchSnoc(cfg, t, bs[1..], os[1..], i - 1, v);
      assert bs[..i + 1][1..] == bs[1..][..i] && os[..i + 1][1..] == os[1..][..i];
      assert bs[..i][1..] == bs[1..][..i - 1] && os[..i][1..] == os[1..][..i - 1];
    }
  }

  lemma {:induction false} OneBlock(cfg: Config, bs: seq<ReplyBlock>, i: nat, o: Outcome, v: Work)
    requires i < |bs| && Recorded(v) && EncodedBlocks(bs)
    ensures var w := Dispatch(cfg, TruncatedIds(bs), bs[i], o, v);
            BlockEffect(cfg, bs, i, o, v, w) && Recorded(w)
  {
    var w := Dispatch(cfg, TruncatedIds(bs), bs[i], o, v);
    if bs[i].ReplyToolUse? {
      var input := Passed(bs[i].input);
      CutOffIsTruncated(bs, bs[i].id);
      if bs[i].id !in TruncatedIds(bs) {
        assert !bs[i].input.Broken?;
        RecordTellsFailures(v, bs[i].name, input);
        if w.calls != v.calls {
          RecordGrows(v, Call(bs[i].name, bs[i].input, input, o.failed), o.text, w);
        }
      }
    }
    if w.calls == v.calls {
      assert w.failed == v.failed;
    }
  }

  lemma {:induction false} RecordGrows(v: Work, c: Call, error: string, w: Work)
    requires Recorded(v) && c.input.Json? && Encoded(c.input) && w.calls == v.calls + [c]
    requires w.failed == if c.failed then v.failed[CallKey(c.name, c.input) := error] else v.failed
    ensures Recorded(w)
  {
    var key, calls := CallKey(c.name, c.input), v.calls + [c];
    assert calls[|v.calls|] == c;
    forall other | other in v.failed ensures FailedUnder(calls, other) {
      var k :| 0 <= k < |v.calls| && v.calls[k].failed && CallKey(v.calls[k].name, v.calls[k].input) == other;
      assert calls[k] == v.calls[k];
    }
  }

  /** Within a reply, each block has exactly this effect on what the blocks before it have left. */
  lemma {:induction false} DispatchMeaning(cfg: Config, bs: seq<ReplyBlock>, os: seq<Outcome>, w: Work, i: nat)
    requires |os| == |bs| && i < |bs| && Recorded(w) && EncodedBlocks(bs)
    ensures var before := DispatchAll(cfg, TruncatedIds(bs), bs[..i], os[..i], w);
            var after := DispatchAll(cfg, TruncatedIds(bs), bs[..i + 1], os[..i + 1], w);
            BlockEffect(cfg, bs, i, os[i], before, after)
  {
    PrefixIsRecorded(cfg, bs, os, w, i);
    DispatchSnoc(cfg, TruncatedIds(bs), bs, os, i, w);
    OneBlock(cfg, bs, i, os[i], DispatchAll(cfg, TruncatedIds(bs), bs[..i], os[..i], w));
  }

  lemma {:induction false} PrefixIsRecorded(cfg: Config, bs: seq<ReplyBlock>, os: seq<Outcome>, w: Work, i: nat)
    requires |os| == |bs| && i <= |bs| && Recorded(w) && EncodedBlocks(bs)
    ensures Recorded(DispatchAll(cfg, TruncatedIds(bs), bs[..i], os[..i], w))
  {
    if i > 0 {
      PrefixIsRecorded(cfg, bs, os, w, i - 1);
      DispatchSnoc(cfg, TruncatedIds(bs), bs, os, i - 1, w);
      OneBlock(cfg, bs, i - 1, os[i - 1], DispatchAll(cfg, TruncatedIds(bs), bs[..i - 1], os[..i - 1], w));
    }
  }

  // ----- One turn of a run -----

  /** The budget of turns is used up, and nothing else has ended the run. */
  predicate Running(cfg: Config, h: seq<Message>, email: Message, last: string, events: seq<TurnEvent>) {
    Run(cfg, h, email, last, events).1 == MaxTurns
  }

  lemma {:induction false} RunFromSnoc(cfg: Config, st: RunState, events: seq<TurnEvent>, event: TurnEvent)
    ensures var (v, exit) := RunFrom(cfg, st, events);
            RunFrom(cfg, st, events + [event])
            == if exit == MaxTurns then RunFrom(cfg, v, [event]) else (v, exit)
    decreases |events|
  {
    if events == [] {
      assert [] + [event] == [event];
    } else {
      assert (events + [event])[1..] == events[1..] + [event];
      if RunsOn(events) {
        RunFromSnoc(cfg, FeedResults(AfterReply(cfg, st, events[0].answer)), events[1..], event);
      }
    }
  }

  /** What the provider is handed. */
  function Handed(cfg: Config, h: seq<Message>): seq<Message> {
    if cfg.maxHistoryChars <= 0 then h else Trimmed(h, cfg.maxHistoryChars, cfg.agents)
  }

  /** One more turn of a run that has not ended: a cancelled one does nothing, otherwise the history is handed to
      the provider; the reply is stored, its blocks dispatched in order, and the results fed back, unless the
      reply ends the run. */
  lemma {:induction false} RunStep(cfg: Config, h: seq<Message>, email: Message, last: string, events: seq<TurnEvent>,
                                   event: TurnEvent)
    requires Running(cfg, h, email, last, events)
    ensures var v := Run(cfg, h, email, last, events).0;
            var (w, exit) := Run(cfg, h, email, last, events + [event]);
            match event
            case Cancelled => w == v && exit == ContextCancelled
            case ApiFailed =>
              exit == ApiError && w == v.(sent := v.sent + [Handed(cfg, v.history)])
            case Answered(a) =>
              var bs := a.reply.content;
              var stored := ToHistoryParam(cfg.provider, Repair(bs));
              var ended := a.reply.stop == "end_turn";
              && exit == (if ended then Finished(a.reply) else MaxTurns)
              && w.sent == v.sent + [Handed(cfg, v.history)]
              && w.work == DispatchAll(cfg, TruncatedIds(bs), bs, a.outcomes, v.work.(results := []))
              && w.history == v.history + [stored]
                   + if ended || w.work.results == [] then [] else [Turn("user", w.work.results, false)]
  {
    RunFromSnoc(cfg, Start(h, email, last), events, event);
    if event.Answered? {
      var v := Run(cfg, h, email, last, events).0;
      assert [event][1..] == [];
      var next := AfterReply(cfg, v, event.answer);
      assert next.history + [] == next.history;
    }
  }

  /** Before the first turn: the history with the mail at its end. */
  lemma {:induction false} RunStarts(cfg: Config, h: seq<Message>, email: Message, last: string)
    ensures Run(cfg, h, email, last, []) == (RunState(h + [email], [], Work(map[], [], [], last)), MaxTurns)
  {
  }

  /** Once a run has ended, further events make no difference. */
  lemma {:induction false} RunEnds(cfg: Config, h: seq<Message>, email: Message, last: string, events: seq<TurnEvent>,
                                   more: seq<TurnEvent>)
    requires !Running(cfg, h, email, last, events)
    ensures Run(cfg, h, email, last, events + more) == Run(cfg, h, email, last, events)
  {
    hide RunFrom;
    if more == [] {
      assert events + [] == events;
    } else {
      var init := more[..|more| - 1];
      RunEnds(cfg, h, email, last, events, init);
      RunFromSnoc(cfg, Start(h, email, last), events + init, more[|more| - 1]);
      assert events + init + [more[|more| - 1]] == events + more;
    }
  }

  predicate EncodedEvents(events: seq<TurnEvent>) {
    forall i :: 0 <= i < |events| && events[i].Answered? ==> EncodedBlocks(events[i].answer.reply.content)
  }

  lemma {:induction false} RunIsRecorded(cfg: Config, h: seq<Message>, email: Message, last: string,
                                         events: seq<TurnEvent>)
    requires EncodedEvents(events)
    ensures Recorded(Run(cfg, h, email, last, events).0.work)
  {
    if events != [] {
      var init, event := events[..|events| - 1], events[|events| - 1];
      assert events == init + [event];
      RunIsRecorded(cfg, h, email, last, init);
      var v := Run(cfg, h, email, last, init).0;
      if !Running(cfg, h, email, last, init) {
        RunEnds(cfg, h, email, last, init, [event]);
      } else {
        RunStep(cfg, h, email, last, init, event);
        if event.Answered? {
          var a := event.answer;
          PrefixIsRecorded(cfg, a.reply.content, a.outcomes, v.work.(results := []), |a.reply.content|);
          assert a.reply.content[..|a.reply.content|] == a.reply.content;
          assert a.outcomes[..|a.outcomes|] == a.outcomes;
        }
      }
    }
  }

  /** In every turn of every run a call is executed exactly if its tool exists, it was not cut off and no call of
      the run before it failed with the same name and canonical input; it then runs once, in order, with its
      input, and its result carries the outcome.  Any other call is answered by guidance, marked as an error. */
  lemma {:induction false} RunExecutes(cfg: Config, h: seq<Message>, email: Message, last: string,
                                       events: seq<TurnEvent>, a: ValidAnswer, i: nat)
    requires Running(cfg, h, email, last, events) && EncodedEvents(events + [Answered(a)]) && i < |a.reply.content|
    ensures var bs, os := a.reply.content, a.outcomes;
            var w := Run(cfg, h, email, last, events).0.work.(results := []);
            var end := Run(cfg, h, email, last, events + [Answered(a)]).0.work;
            && BlockEffect(cfg, bs, i, os[i], DispatchAll(cfg, TruncatedIds(bs), bs[..i], os[..i], w),
                           DispatchAll(cfg, TruncatedIds(bs), bs[..i + 1], os[..i + 1], w))
            && end == DispatchAll(cfg, TruncatedIds(bs), bs[..|bs|], os[..|bs|], w)
  {
    var bs, os := a.reply.content, a.outcomes;
    assert forall j :: 0 <= j < |events| ==> (events + [Answered(a)])[j] == events[j];
    assert (events + [Answered(a)])[|events|] == Answered(a);
    RunIsRecorded(cfg, h, email, last, events);
    RunStep(cfg, h, email, last, events, Answered(a));
    DispatchMeaning(cfg, bs, os, Run(cfg, h, email, last, events).0.work.(results := []), i);
    assert bs[..|bs|] == bs && os[..|bs|] == os;
  }

  // ----- What is stored of a reply -----

  /** What a stored block says, read back as a block of a reply. */
  function ReadBlock(b: Block): ReplyBlock {
    match b
    case Text(text, _, _) => ReplyText(text)
    case ToolUse(id, name, input) => ReplyToolUse(id, name, input)
    case ServerCall(id, _) => ReplyServerCall(id)
    case ServerResult(id, corrupt) => ReplyServerResult(id, corrupt)
    case Thinking(thinking, signature) => ReplyThinking(thinking, signature)
    case RedactedThinking(data) => ReplyRedacted(data)
    case Unknown(raw) => ReplyOther("", raw)
    case _ => ReplyOther("", "")
  }

  function ReadBack(bs: seq<Block>): seq<ReplyBlock> {
    if bs == [] then [] else [ReadBlock(bs[0])] + ReadBack(bs[1..])
  }

  /** What a provider keeps of a reply: one of them everything, the other text, calls and blocks with their raw
      JSON.  Input that is missing or cut off is the empty object, a block of an unknown kind is its raw JSON
      or else its text. */
  function KeptOf(provider: Provider, b: ReplyBlock): seq<ReplyBlock> {
    match b
    case ReplyText(_) => [b]
    case ReplyToolUse(id, name, input) =>
      [ReplyToolUse(id, name, if input.Json? then input else Json("{}", "{}", "{}"))]
    case ReplyOther(text, raw) =>
      if raw != "" then [ReplyOther("", raw)] else if provider == Anthropic then [ReplyText(text)] else []
    case _ => if provider == Anthropic then [b] else []
  }

  function Kept(provider: Provider, bs: seq<ReplyBlock>): seq<ReplyBlock> {
    if bs == [] then [] else KeptOf(provider, bs[0]) + Kept(provider, bs[1..])
  }

  /** No sender, and nothing the API does not accept. */
  predicate CleanBlock(b: Block) {
    match b
    case Text(_, from, citations) => from == "" && !citations
    case ServerCall(_, extraFields) => !extraFields
    case _ => true
  }

  predicate CleanBlocks(bs: seq<Block>) {
    forall i :: 0 <= i < |bs| ==> CleanBlock(bs[i])
  }

  lemma {:induction false} ReadBackAppend(a: seq<Block>, b: seq<Block>)
    ensures ReadBack(a + b) == ReadBack(a) + ReadBack(b)
  {
    if a == [] {
      assert a + b == b;
    } else {
      assert (a + b)[1..] == a[1..] + b;
      ReadBackAppend(a[1..], b);
    }
  }

  lemma {:induction false} ContentReadsBack(provider: Provider, bs: seq<ReplyBlock>)
    ensures var content := HistoryContent(provider, Repair(bs));
            ReadBack(content) == Kept(provider, bs) && CleanBlocks(content)
  {
    if bs != [] {
      var b, rest := Repair(bs)[0], Repair(bs)[1..];
      assert rest == Repair(bs[1..]);
      ContentReadsBack(provider, bs[1..]);
      BlockReadsBack(provider, bs[0]);
      ReadBackAppend(HistoryBlocks(provider, b), HistoryContent(provider, rest));
    }
  }

  lemma {:induction false} BlockReadsBack(provider: Provider, b: ReplyBlock)
    ensures var content := HistoryBlocks(provider, RepairBlock(b));
            ReadBack(content) == KeptOf(provider, b) && CleanBlocks(content)
  {
    var content := HistoryBlocks(provider, RepairBlock(b));
    assert content != [] ==> content[1..] == [];
  }

  /** The stored assistant turn reads back as what the provider keeps of the reply, block by block and in order;
      if that is nothing, one provider stores an empty text. */
  lemma {:induction false} ReplyIsStored(provider: Provider, bs: seq<ReplyBlock>)
    ensures var m := ToHistoryParam(provider, Repair(bs));
            && m.Turn? && m.role == "assistant" && !m.loaded && CleanBlocks(m.content)
            && ReadBack(m.content)
               == if Kept(provider, bs) == [] && provider == OpenRouter then [ReplyText("")] else Kept(provider, bs)
  {
    ContentReadsBack(provider, bs);
    var content := HistoryContent(provider, Repair(bs));
    assert content == [] <==> Kept(provider, bs) == [];
    assert [Text("", "", false)][1..] == [];
  }

  /** A completion of the second provider: its text, if any, then its calls in order, and the reason for the
      stop in the words of the first. */
  lemma {:induction false} CompletionMeaning(choices: seq<Choice>)
    ensures choices == [] ==> ToMessageResponse(choices) == Reply([], "")
    ensures choices != [] ==>
              var c, r := choices[0], ToMessageResponse(choices);
              var n := if c.text == "" then 0 else 1;
              && |r.content| == n + |c.calls| && (n == 1 ==> r.content[0] == ReplyText(c.text))
              && (forall k :: 0 <= k < |c.calls| ==>
                    r.content[n + k] == ReplyToolUse(c.calls[k].0, c.calls[k].1, c.calls[k].2))
              && (c.finish == "stop" ==> r.stop == "end_turn")
              && (c.finish == "tool_calls" ==> r.stop == "tool_use")
              && (c.finish == "length" ==> r.stop == "max_tokens")
              && (c.finish !in {"stop", "tool_calls", "length"} ==> r.stop == c.finish)
  {
    if choices != [] {
      CallBlocksAt(choices[0].calls);
    }
  }

  lemma {:induction false} CallBlocksAt(calls: seq<(string, string, Input)>)
    ensures |CallBlocks(calls)| == |calls|
    ensures forall k :: 0 <= k < |calls| ==>
              CallBlocks(calls)[k] == ReplyToolUse(calls[k].0, calls[k].1, calls[k].2)
  {
    if calls != [] {
      CallBlocksAt(calls[1..]);
    }
  }
}
