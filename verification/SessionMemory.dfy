/** What a thread's file holds after an event, and what the next run on the thread starts from
    (cmd/kikubot/main.go: processNewEmails, runSnooze; internal/services/memory.go: SaveMemoryHistory, GetMemory). */
module SessionMemory {
  import opened AgentLoop
  import opened AgentTurns
  import opened LoadContent
  import opened MemoryLoad
  import opened Sessions
  import opened Transcript
  import opened Trimming

  // ----- Which files an event writes -----

  /** The threads whose file an event may write. */
  predicate Writes(e: Event, root: string) {
    match e
    case Inbound(_, saveRoot, _, refsRoot, _, _, statuses, _, _) =>
      root == saveRoot || root == refsRoot || root in statuses
    case Replay(_, saveRoot, _, _, statuses, _) => root == saveRoot || root in statuses
    case AutoReplyNote(noted, _) => root == noted
    case StatusWrite(written) => root == written
  }

  predicate SameFile(a: Files, b: Files, root: string) {
    (root in a <==> root in b) && (root in a ==> a[root] == b[root])
  }

  lemma {:induction false} StatusesWrite(files: Files, roots: seq<string>, root: string)
    ensures root !in roots ==> SameFile(files, SetStatuses(files, roots), root)
    ensures root in SetStatuses(files, roots) <==> root in files || root in roots
    decreases |roots|
  {
    if roots != [] {
      StatusesWrite(SetStatus(files, roots[0]), roots[1..], root);
      assert roots == [roots[0]] + roots[1..];
    }
  }

  /** An event leaves the files of all other threads alone. */
  lemma {:induction false} OtherFilesStay(cfg: Config, w: World, e: Event, root: string)
    requires !Writes(e, root)
    ensures SameFile(w.files, Step(cfg, w, e).files, root)
  {
    match e
    case Inbound(_, _, _, _, _, _, statuses, preSaved, _) =>
      StatusesWrite(PreSaved(w.files, e), statuses, root);
    case Replay(_, _, _, _, statuses, _) =>
      StatusesWrite(w.files, statuses, root);
    case AutoReplyNote(_, _) =>
    case StatusWrite(_) =>
  }

  /** What a thread starts from: nothing, or its file as it is loaded. */
  function StartOf(files: Files, root: string): seq<Message> {
    if root in files then Load(files[root]) else []
  }

  /** A saved run leaves its whole history in the file, without attachment payloads, and hands out its lists; a note
      is appended to what the thread starts from, and setting a status writes that back. */
  lemma {:induction false} FileMeaning(cfg: Config, w: World, e: Event)
    ensures Runs(e) ==>
              var end := Run(cfg, StartOf(w.files, e.root), e.email, "", e.turns).0;
              && Step(cfg, w, e).lists == w.lists + end.sent
              && (e.saved ==> e.saveRoot in Step(cfg, w, e).files
                              && Step(cfg, w, e).files[e.saveRoot] == Stripped(end.history))
    ensures !Runs(e) ==> Step(cfg, w, e).lists == w.lists
    ensures e.AutoReplyNote? ==>
              && e.root in Step(cfg, w, e).files
              && Step(cfg, w, e).files[e.root]
                 == StartOf(w.files, e.root) + [Turn("user", [Text(e.text, "", false)], false)]
    ensures e.StatusWrite? ==>
              e.root in Step(cfg, w, e).files && Step(cfg, w, e).files[e.root] == StartOf(w.files, e.root)
  {
  }

  /** An inbound mail whose run is not saved leaves what was saved before the run: what the thread started from, or
      the history rebuilt from references if it had no file; the rebuilt one is written even if nothing else is. */
  lemma {:induction false} FirstSaveMeaning(cfg: Config, w: World, e: Event)
    requires e.Inbound? && e.statuses == []
    ensures var files := Step(cfg, w, e).files;
            && (e.preSaved && !e.saved ==>
                  e.saveRoot in files
                  && files[e.saveRoot] == if e.root in w.files then Load(w.files[e.root]) else e.refs)
            && (e.root !in w.files && e.refs != [] && (!e.preSaved || e.refsRoot != e.saveRoot) ==>
                  e.refsRoot in files && files[e.refsRoot] == e.refs)
            && (!e.preSaved && (e.root in w.files || e.refs == []) ==> files == w.files)
  {
  }

  // ----- Nothing of a run is forgotten -----

  /** A run only appends. */
  lemma {:induction false} RunAppends(cfg: Config, st: RunState, events: seq<TurnEvent>)
    ensures st.history <= RunFrom(cfg, st, events).0.history
    decreases |events|
  {
    if RunsOn(events) {
      var next := FeedResults(AfterReply(cfg, st, events[0].answer));
      RunAppends(cfg, next, events[1..]);
      RunContinues(cfg, st, events);
      assert st.history <= next.history;
    }
  }

  lemma {:induction false} StrippedTools(h: seq<Message>)
    ensures AllToolBlocks(Stripped(h)) == AllToolBlocks(h)
  {
    if h != [] {
      StrippedTools(h[1..]);
      BlobsKeepTools(Blocks(h[0]));
      assert Stripped(h)[1..] == Stripped(h[1..]);
    }
  }

  lemma {:induction false} BlobsKeepTools(bs: seq<Block>)
    ensures ToolBlocks(StripBlobs(bs)) == ToolBlocks(bs)
  {
    if bs != [] {
      BlobsKeepTools(bs[1..]);
      assert StripBlobs(bs)[1..] == StripBlobs(bs[1..]);
    }
  }

  /** The message stays when it is loaded. */
  predicate HasContent(m: Message) {
    && m.Turn? && m.content != []
    && forall i :: 0 <= i < |m.content| ==> !m.content[i].ServerResult? && !m.content[i].ServerCall?
  }

  lemma {:induction false} ContentSurvives(m: Message)
    requires HasContent(m)
    ensures Survives(StripMessage(m))
  {
    BlobsPointwise(m.content);
    var n := StripMessage(m);
    assert Sound(n.content, n.content[0]);
  }

  lemma {:induction false} LoadedSurvives(stored: seq<Message>, i: nat)
    requires i < |Load(stored)|
    ensures Survives(Load(stored)[i]) && StripMessage(Load(stored)[i]) == Load(stored)[i]
  {
    LoadIsClean(stored);
    var n := Load(stored)[i];
    CleanIsFixed(n);
    OneSanitized(n);
    LoadIsLoaded(stored, i);
  }

  lemma {:induction false} LoadIsLoaded(stored: seq<Message>, i: nat)
    requires i < |Load(stored)|
    ensures Load(stored)[i].Turn? ==> Load(stored)[i].loaded
  {
    WrapIsWrapped(TrimLead(Sanitize(stored)));
  }

  /** A history that starts with a message that survives and can lead is loaded with all its tool blocks. */
  lemma {:induction false} AllToolsReload(stored: seq<Message>)
    requires stored != [] && Survives(stored[0]) && CanLead(stored[0])
    ensures AllToolBlocks(Load(stored)) == AllToolBlocks(stored)
  {
    OneSanitized(stored[0]);
    SanitizeStep(stored);
    var cut := LoadKeepsTools(stored);
    var s := Sanitize(stored);
    assert s != [] && SafeCut(s[0]) && cut == 0;
    assert s[..0] == [] && AllToolBlocks([]) == [];
  }

  /** The next run on a thread starts from every tool call and result of the run before: with the same names,
      inputs, texts and error flags, in order, whatever the save and the load repaired. */
  lemma {:induction false} NextRunRemembers(cfg: Config, w: World, e: Event)
    requires AllClosed(w.files) && PlainEvent(e) && Runs(e) && e.saved && HasContent(e.email)
    ensures var end := Run(cfg, StartOf(w.files, e.root), e.email, "", e.turns).0;
            AllToolBlocks(StartOf(Step(cfg, w, e).files, e.saveRoot)) == AllToolBlocks(end.history)
  {
    var start := StartOf(w.files, e.root);
    var end := Run(cfg, start, e.email, "", e.turns).0;
    FileMeaning(cfg, w, e);
    RunAppends(cfg, AgentLoop.Start(start, e.email, ""), e.turns);
    assert end.history[0] == (start + [e.email])[0];
    StrippedPointwise(end.history);
    LoadedIsReady(w.files, e.root);
    if start == [] {
      ContentSurvives(e.email);
      StripKeepsLead(e.email);
    } else {
      LoadedSurvives(w.files[e.root], 0);
      LeadIsSafe(start[0]);
    }
    AllToolsReload(Stripped(end.history));
    StrippedTools(end.history);
  }

  lemma {:induction false} StripKeepsLead(m: Message)
    requires PlainUserTurn(m)
    ensures CanLead(StripMessage(m))
  {
    StripBlobsKeepsIds(Blocks(m));
    LeadIsSafe(StripMessage(m));
  }
}
