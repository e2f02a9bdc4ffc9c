/** From the inbox to the second provider: the message lists of whole sessions, translated
    (internal/agents/agent.go, internal/services/memory.go and internal/provider/openrouter.go together). */
module Handover {
  import opened AgentLoop
  import opened Compression
  import opened MemoryLoad
  import opened Sessions
  import opened Transcript
  import opened Translation
  import opened Trimming
  import Router = OpenRouter

  // ----- No list mixes tool results with other content in a fresh user turn -----

  predicate Unmixed(h: seq<Message>) {
    Router.NoneMixed(h)
  }

  predicate AllUnmixed(lists: seq<seq<Message>>) {
    forall i :: 0 <= i < |lists| ==> Unmixed(lists[i])
  }

  lemma {:induction false} SameShapeMixes(m: Message, n: Message)
    requires SameShape(m, n)
    ensures Router.Mixed(m) <==> Router.Mixed(n)
  {
    if m != n {
      SameBlocksSameIds(m.content, n.content);
      forall j | 0 <= j < |m.content| ensures m.content[j].ToolResult? <==> n.content[j].ToolResult? {
        assert SameBlock(m.content[j], n.content[j]);
      }
    }
  }

  lemma {:induction false} CompressUnmixed(h: seq<Message>, maxChars: int)
    requires Unmixed(h)
    ensures Unmixed(Compress(h, maxChars))
  {
    var _, _ := CompressMeaning(h, maxChars);
    var k := Compress(h, maxChars);
    forall i | 0 <= i < |k| ensures !Router.Mixed(k[i]) {
      SameShapeMixes(h[i], k[i]);
    }
  }

  lemma {:induction false} OutgoingUnmixed(cfg: Config, h: seq<Message>)
    requires Unmixed(h)
    ensures Unmixed(Outgoing(cfg, h))
  {
    var max := cfg.maxHistoryChars;
    if max > 0 && Trimmed(h, max, cfg.agents) != h {
      var _, cut := TrimMeaning(h, max, cfg.agents);
      assert Unmixed(h[cut..]);
      CompressUnmixed(h[cut..], max);
    }
  }

  lemma {:induction false} TurnUnmixed(cfg: Config, st: RunState, a: ValidAnswer)
    requires Unmixed(st.history) && AllUnmixed(st.sent)
    ensures Unmixed(AfterReply(cfg, st, a).history) && AllUnmixed(AfterReply(cfg, st, a).sent)
    ensures Unmixed(FeedResults(AfterReply(cfg, st, a)).history)
  {
    hide Router.Mixed, Outgoing, DispatchAll, Repair;
    var bs := a.reply.content;
    var next := AfterReply(cfg, st, a);
    OutgoingUnmixed(cfg, st.history);
    DispatchAddsOnlyResults(cfg, TruncatedIds(bs), bs, a.outcomes, st.work.(results := []));
    PlainOrResultsOnly(ToHistoryParam(cfg.provider, Repair(bs)), next.work.results);
  }

  lemma {:induction false} PlainOrResultsOnly(m: Message, results: seq<Block>)
    requires m.Turn? && m.role == ASSISTANT && Router.OnlyResults(results)
    ensures !Router.Mixed(m) && !Router.Mixed(Turn(USER, results, false))
  {
  }

  lemma {:induction false} RunFromUnmixed(cfg: Config, st: RunState, events: seq<TurnEvent>)
    requires Unmixed(st.history) && AllUnmixed(st.sent)
    ensures AllUnmixed(RunFrom(cfg, st, events).0.sent)
    decreases |events|
  {
    OutgoingUnmixed(cfg, st.history);
    if events != [] && events[0].Answered? {
      TurnUnmixed(cfg, st, events[0].answer);
      if RunsOn(events) {
        RunContinues(cfg, st, events);
        RunFromUnmixed(cfg, FeedResults(AfterReply(cfg, st, events[0].answer)), events[1..]);
      }
    }
  }

  lemma {:induction false} LoadedUnmixed(files: Files, root: string)
    ensures Unmixed(LoadFile(files, root))
  {
    if root in files {
      WrapKeeps(TrimLead(Sanitize(files[root])));
    }
  }

  lemma {:induction false} StepUnmixed(cfg: Config, w: World, e: Event)
    requires AllUnmixed(w.lists) && PlainEvent(e)
    ensures AllUnmixed(Step(cfg, w, e).lists)
  {
    if Runs(e) {
      LoadedUnmixed(w.files, e.root);
      RunFromUnmixed(cfg, Start(LoadFile(w.files, e.root), e.email, ""), e.turns);
    }
  }

  lemma {:induction false} SessionsUnmixed(cfg: Config, w: World, events: seq<Event>)
    requires AllUnmixed(w.lists) && forall i :: 0 <= i < |events| ==> PlainEvent(events[i])
    ensures AllUnmixed(StepAll(cfg, w, events).lists)
    decreases |events|
  {
    if events != [] {
      StepUnmixed(cfg, w, events[0]);
      SessionsUnmixed(cfg, Step(cfg, w, events[0]), events[1..]);
    }
  }

  // ----- What the second provider is sent -----

  /** Every call is answered directly behind its assistant message; all ids are there, in order; and the calls and
      answers say what the history says: names, arguments and texts. */
  ghost predicate Translates(system: string, h: seq<Message>) {
    var chat := Router.Convert(system, h);
    && Router.ChatPaired(chat) && Router.IdsIn(chat) == Router.HistoryIds(h)
    && SameCalls(ChatCalls(chat), HistoryUses(h)) && SameAnswers(ChatAnswers(chat), HistoryResults(h))
  }

  lemma {:induction false} SendableTranslates(system: string, h: seq<Message>)
    requires Sendable(h) && Unmixed(h)
    ensures Translates(system, h)
  {
    PairedByTurn(multiset{}, h);
    forall i | 0 <= i < |h| ensures Disciplined(h[i]) {
      assert AnswersPrevious(multiset{}, h, i);
    }
    ConvertKeepsCalls(system, h);
    Router.ConvertKeepsIds(system, h);
    Router.ConvertKeepsPairing(h);
    var lead := if system != "" then [Router.System(system)] else [];
    Router.PlainChatHead(lead, Router.ConvertAll(h));
  }

  /** Over any sequence of inbound mails, replays, auto-reply notes and status writes on any threads, every
      message list handed to a provider translates without losing, doubling or moving a call or an answer --
      as long as no run whose history is saved ends on an end_turn reply that carries tool calls. */
  lemma {:induction false} SessionsTranslate(cfg: Config, w: World, events: seq<Event>, system: string)
    requires AllClosed(w.files) && AllSendable(w.lists) && AllUnmixed(w.lists)
    requires forall i :: 0 <= i < |events| ==> PlainEvent(events[i])
    requires NeverSavesOpenCalls(cfg, w, events)
    ensures var lists := StepAll(cfg, w, events).lists;
            forall i :: 0 <= i < |lists| ==> Translates(system, lists[i])
  {
    SessionsKeepPairing(cfg, w, events);
    SessionsUnmixed(cfg, w, events);
    var lists := StepAll(cfg, w, events).lists;
    forall i | 0 <= i < |lists| ensures Translates(system, lists[i]) {
      SendableTranslates(system, lists[i]);
    }
  }
}
