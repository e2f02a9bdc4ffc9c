/** Memory files across runs: load, handle, save and reload (cmd/kikubot/main.go: processNewEmails,
    runSnooze, runWatchdog, handleAutoReply; internal/services/memory.go: SaveMemoryHistory). */
module Sessions {
  import opened AgentLoop
  import opened MemoryLoad
  import opened Transcript
  import opened Trimming

  type Files = map<string, seq<Message>>

  /** `root` is the thread whose file is read, `saveRoot` the one written (the two lookups of the code
      resolve it separately); `turns` scripts the run, `statuses` the threads whose status it sets.  `refs`
      are the messages rebuilt from referenced mail when the thread has no file yet, saved under `refsRoot`;
      `preSaved` says whether the save before the run works, without which there is no run. */
  datatype Event =
    | Inbound(root: string, saveRoot: string, refs: seq<Message>, refsRoot: string, email: Message,
              turns: seq<TurnEvent>, statuses: seq<string>, preSaved: bool, saved: bool)
    | Replay(root: string, saveRoot: string, email: Message, turns: seq<TurnEvent>, statuses: seq<string>,
             saved: bool)
    | AutoReplyNote(root: string, text: string)
    | StatusWrite(root: string)

  /** The files, and every message list handed to a provider so far. */
  datatype World = World(files: Files, lists: seq<seq<Message>>)

  function LoadFile(files: Files, root: string): seq<Message> {
    if root in files then Load(files[root]) else []
  }

  /** Rebuilding a history from references writes it at once. */
  function Rebuilt(files: Files, e: Event): Files
    requires e.Inbound?
  {
    if e.root !in files && e.refs != [] then files[e.refsRoot := e.refs] else files
  }

  /** The files before an inbound run: the loaded history, or the one rebuilt from references, is
      written back first. */
  function PreSaved(files: Files, e: Event): Files
    requires e.Inbound?
  {
    Rebuilt(files, e)[e.saveRoot := if e.root in files then Load(files[e.root]) else e.refs]
  }

  /** Setting a status reads the whole file, repairs it and writes it back. */
  function SetStatus(files: Files, root: string): Files {
    files[root := LoadFile(files, root)]
  }

  function SetStatuses(files: Files, roots: seq<string>): Files
    decreases |roots|
  {
    if roots == [] then files else SetStatuses(SetStatus(files, roots[0]), roots[1..])
  }

  function Save(files: Files, root: string, history: seq<Message>, saved: bool): Files {
    if saved then files[root := Stripped(history)] else files
  }

  /** The run an event starts, None for events without one. */
  predicate Runs(e: Event) {
    e.Replay? || (e.Inbound? && e.preSaved)
  }

  function RunOf(cfg: Config, w: World, e: Event): (RunState, Exit)
    requires Runs(e)
  {
    Run(cfg, LoadFile(w.files, e.root), e.email, "", e.turns)
  }

  function Step(cfg: Config, w: World, e: Event): World {
    match e
    case Inbound(_, saveRoot, _, _, _, _, statuses, preSaved, saved) =>
      if !preSaved then w.(files := Rebuilt(w.files, e))
      else
        var end := RunOf(cfg, w, e).0;
        World(Save(SetStatuses(PreSaved(w.files, e), statuses), saveRoot, end.history, saved), w.lists + end.sent)
    case Replay(_, saveRoot, _, _, statuses, saved) =>
      var end := RunOf(cfg, w, e).0;
      World(Save(SetStatuses(w.files, statuses), saveRoot, end.history, saved), w.lists + end.sent)
    case AutoReplyNote(root, text) =>
      w.(files := w.files[root := LoadFile(w.files, root) + [Turn(USER, [Text(text, "", false)], false)]])
    case StatusWrite(root) => w.(files := SetStatus(w.files, root))
  }

  function StepAll(cfg: Config, w: World, events: seq<Event>): World
    decreases |events|
  {
    if events == [] then w else StepAll(cfg, Step(cfg, w, events[0]), events[1..])
  }

  /** The poller's view: one agent, one set of files. */
  class Poller {
    var files: Files
    const agent: Agent

    constructor (agent: Agent)
      ensures this.agent == agent && files == map[]
    {
      this.agent := agent;
      files := map[];
    }

    method LoadHistory(root: string) returns (history: seq<Message>)
      ensures history == LoadFile(files, root)
    {
      history := [];
      if root in files {
        history := ReadMemory(files[root]);
      }
    }

    method SaveHistory(root: string, saved: bool)
      modifies this
      ensures files == Save(old(files), root, agent.history, saved)
    {
      var stripped := StripAttachmentBlobs(agent.history);
      if saved {
        files := files[root := stripped];
      }
    }

    method SetMemoryStatus(root: string)
      modifies this`files
      ensures files == SetStatus(old(files), root)
    {
      var history := LoadHistory(root);
      files := files[root := history];
    }

    /** The status calls of a run, in order.  Nothing else in a run touches the files. */
    method SetMemoryStatuses(roots: seq<string>)
      modifies this`files
      ensures files == SetStatuses(old(files), roots)
    {
      for i := 0 to |roots|
        invariant SetStatuses(files, roots[i..]) == SetStatuses(old(files), roots)
      {
        assert roots[i..][1..] == roots[i + 1..];
        SetMemoryStatus(roots[i]);
      }
    }

    /** The loop body of processNewEmails for a message that may reach the agent. */
    method HandleInbound(cfg: Config, e: Event) returns (ghost sent: seq<seq<Message>>)
      requires e.Inbound?
      modifies this, agent
      ensures World(files, sent) == Step(cfg, World(old(files), []), e)
    {
      ghost var w := World(files, []);
      var history: seq<Message> := [];
      var first: seq<Message> := [];
      if e.root in files {
        history := LoadHistory(e.root);
        first := history;
      } else {
        first := e.refs;
        if |e.refs| > 0 {
          files := files[e.refsRoot := e.refs];
        }
      }
      if !e.preSaved {
        return [];
      }
      files := files[e.saveRoot := first];
      assert files == PreSaved(w.files, e);
      agent.ClearHistory();
      agent.SetHistory(history);
      var exit, lists, _ := agent.HandleMessage(cfg, e.email, e.turns);
      SetMemoryStatuses(e.statuses);
      SaveHistory(e.saveRoot, e.saved);
      sent := lists;
      assert [] + lists == lists;
    }

    /** runSnooze and the nudge of runWatchdog: replay on the thread's own memory. */
    method ReplayThread(cfg: Config, e: Event) returns (ghost sent: seq<seq<Message>>)
      requires e.Replay?
      modifies this, agent
      ensures World(files, sent) == Step(cfg, World(old(files), []), e)
    {
      var history := LoadHistory(e.root);
      agent.ClearHistory();
      agent.SetHistory(history);
      var exit, lists, _ := agent.HandleMessage(cfg, e.email, e.turns);
      SetMemoryStatuses(e.statuses);
      SaveHistory(e.saveRoot, e.saved);
      sent := lists;
      assert [] + lists == lists;
    }

    /** The terminal note handleAutoReply records. */
    method RecordNote(root: string, text: string)
      modifies this
      ensures files == old(files)[root := LoadFile(old(files), root) + [Turn(USER, [Text(text, "", false)], false)]]
    {
      var history := LoadHistory(root);
      files := files[root := history + [Turn(USER, [Text(text, "", false)], false)]];
    }
  }

  // ----- Every list handed to a provider is well paired -----

  predicate PlainTurns(h: seq<Message>) {
    forall i :: 0 <= i < |h| ==> PlainUserTurn(h[i])
  }

  /** Inbound mail becomes plain user turns. */
  predicate PlainEvent(e: Event) {
    match e
    case Inbound(_, _, refs, _, email, _, _, _, _) => PlainUserTurn(email) && PlainTurns(refs)
    case Replay(_, _, email, _, _, _) => PlainUserTurn(email)
    case _ => true
  }

  /** The event's run ends on an end_turn reply that still carries tool calls. */
  predicate EndsWithOpenCalls(cfg: Config, w: World, e: Event) {
    Runs(e) && var exit := RunOf(cfg, w, e).1; exit.Finished? && CallIds(exit.reply.content) != []
  }

  /** Such a history goes to the file. */
  predicate SavesOpenCalls(cfg: Config, w: World, e: Event) {
    EndsWithOpenCalls(cfg, w, e) && e.saved
  }

  predicate NeverSavesOpenCalls(cfg: Config, w: World, events: seq<Event>)
    decreases |events|
  {
    events == [] ||
    (!SavesOpenCalls(cfg, w, events[0]) && NeverSavesOpenCalls(cfg, Step(cfg, w, events[0]), events[1..]))
  }

  predicate AllClosed(files: Files) {
    forall root | root in files :: Closed(files[root])
  }

  lemma {:induction false} PlainTurnsAreClosed(h: seq<Message>)
    requires PlainTurns(h)
    ensures Closed(h)
  {
    if h != [] {
      var rest := h[1..];
      PlainTurnsAreClosed(rest);
      PairedCons(multiset{}, h[0], rest);
      assert h == [h[0]] + rest && PlainUserTurn(h[0]);
    }
  }

  lemma {:induction false} LoadedIsReady(files: Files, root: string)
    requires AllClosed(files)
    ensures Closed(LoadFile(files, root)) && Led(LoadFile(files, root))
  {
    if root in files {
      LoadKeepsPairing(files[root]);
    }
  }

  lemma {:induction false} RunIsGood(cfg: Config, w: World, e: Event)
    requires AllClosed(w.files) && PlainEvent(e) && Runs(e)
    ensures AllSendable(RunOf(cfg, w, e).0.sent)
    ensures Closed(Stripped(RunOf(cfg, w, e).0.history)) <==> !EndsWithOpenCalls(cfg, w, e)
  {
    LoadedIsReady(w.files, e.root);
    RunKeepsPairing(cfg, LoadFile(w.files, e.root), e.email, "", e.turns);
    StripKeepsPairing(multiset{}, RunOf(cfg, w, e).0.history);
  }

  lemma {:induction false} NoteFits(h: seq<Message>, text: string)
    requires Closed(h)
    ensures Closed(h + [Turn(USER, [Text(text, "", false)], false)])
  {
    var b := Text(text, "", false);
    var bs := [b];
    assert bs[1..] == [] && UseIds(bs[1..]) == [] && ResultIds(bs[1..]) == [];
    PlainTurnFits(h, Turn(USER, bs, false));
  }

  lemma {:induction false} PreSavedIsClosed(files: Files, e: Event)
    requires AllClosed(files) && e.Inbound? && PlainEvent(e)
    ensures AllClosed(Rebuilt(files, e)) && AllClosed(PreSaved(files, e))
  {
    LoadedIsReady(files, e.root);
    PlainTurnsAreClosed(e.refs);
  }

  lemma {:induction false} StatusesKeepClosed(files: Files, roots: seq<string>)
    requires AllClosed(files)
    ensures AllClosed(SetStatuses(files, roots))
    decreases |roots|
  {
    if roots != [] {
      LoadedIsReady(files, roots[0]);
      StatusesKeepClosed(SetStatus(files, roots[0]), roots[1..]);
    }
  }

  lemma {:induction false} SaveKeepsClosed(cfg: Config, w: World, e: Event, files: Files)
    requires AllClosed(w.files) && AllClosed(files) && PlainEvent(e) && Runs(e)
    ensures AllClosed(Save(files, e.saveRoot, RunOf(cfg, w, e).0.history, e.saved)) <==> !SavesOpenCalls(cfg, w, e)
  {
    RunIsGood(cfg, w, e);
    assert e.saved ==> e.saveRoot in Save(files, e.saveRoot, RunOf(cfg, w, e).0.history, e.saved);
  }

  lemma {:induction false} StepKeepsPairing(cfg: Config, w: World, e: Event)
    requires AllClosed(w.files) && AllSendable(w.lists) && PlainEvent(e)
    ensures AllSendable(Step(cfg, w, e).lists)
    ensures AllClosed(Step(cfg, w, e).files) <==> !SavesOpenCalls(cfg, w, e)
  {
    match e {
      case Inbound(_, _, _, _, _, _, statuses, preSaved, _) =>
        PreSavedIsClosed(w.files, e);
        if preSaved {
          RunIsGood(cfg, w, e);
          StatusesKeepClosed(PreSaved(w.files, e), statuses);
          SaveKeepsClosed(cfg, w, e, SetStatuses(PreSaved(w.files, e), statuses));
        }
      case Replay(_, _, _, _, statuses, _) =>
        RunIsGood(cfg, w, e);
        StatusesKeepClosed(w.files, statuses);
        SaveKeepsClosed(cfg, w, e, SetStatuses(w.files, statuses));
      case AutoReplyNote(root, text) =>
        LoadedIsReady(w.files, root);
        NoteFits(LoadFile(w.files, root), text);
      case StatusWrite(root) =>
        LoadedIsReady(w.files, root);
    }
  }

  /** Every file is closed now and after each event. */
  predicate StaysClosed(cfg: Config, w: World, events: seq<Event>)
    decreases |events|
  {
    AllClosed(w.files) && (events == [] || StaysClosed(cfg, Step(cfg, w, events[0]), events[1..]))
  }

  /** Over any sequence of inbound mails, replays, auto-reply notes and status writes on any threads: as long as
      no run whose history is saved ends on an end_turn reply that carries tool calls, every message list
      handed to a provider is well paired with nothing left open and starts with a plain user turn. */
  lemma {:induction false} SessionsKeepPairing(cfg: Config, w: World, events: seq<Event>)
    requires AllClosed(w.files) && AllSendable(w.lists)
    requires forall i :: 0 <= i < |events| ==> PlainEvent(events[i])
    requires NeverSavesOpenCalls(cfg, w, events)
    ensures AllSendable(StepAll(cfg, w, events).lists) && AllClosed(StepAll(cfg, w, events).files)
    decreases |events|
  {
    if events != [] {
      StepKeepsPairing(cfg, w, events[0]);
      SessionsKeepPairing(cfg, Step(cfg, w, events[0]), events[1..]);
    }
  }

  /** The condition is exact: the files stay closed throughout if and only if no such history is saved. */
  lemma {:induction false} SessionsStayClosed(cfg: Config, w: World, events: seq<Event>)
    requires AllClosed(w.files) && forall i :: 0 <= i < |events| ==> PlainEvent(events[i])
    ensures StaysClosed(cfg, w, events) <==> NeverSavesOpenCalls(cfg, w, events)
    decreases |events|
  {
    if events != [] {
      StepKeepsPairing(cfg, w.(lists := []), events[0]);
      StepFiles(cfg, w, events[0]);
      if !SavesOpenCalls(cfg, w, events[0]) {
        SessionsStayClosed(cfg, Step(cfg, w, events[0]), events[1..]);
      }
    }
  }

  /** The lists handed out so far do not matter. */
  lemma {:induction false} StepFiles(cfg: Config, w: World, e: Event)
    ensures Step(cfg, w, e).files == Step(cfg, w.(lists := []), e).files
    ensures SavesOpenCalls(cfg, w, e) <==> SavesOpenCalls(cfg, w.(lists := []), e)
  {
  }

  /** A saved run leaves its file closed if and only if it did not end with open calls. */
  lemma {:induction false} OpenCallsAreSaved(cfg: Config, w: World, e: Event)
    requires AllClosed(w.files) && PlainEvent(e) && Runs(e) && e.saved
    ensures e.saveRoot in Step(cfg, w, e).files
    ensures Closed(Step(cfg, w, e).files[e.saveRoot]) <==> !EndsWithOpenCalls(cfg, w, e)
  {
    RunIsGood(cfg, w, e);
  }
}
