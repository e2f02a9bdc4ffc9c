/** Stuck-task watchdogs (cmd/kikubot/main.go: runWatchdog, rescheduleWatchdog; internal/tools/status.go:
    setTaskStatus).  Memory files are reduced to the status of each thread; what a model does in a turn
    is an arbitrary list of tool calls. */
module Watchdog {
  import opened SnoozeStore
  import opened Strings

  datatype Status = NoStatus | Waiting | Complete | Error | Custom(name: string)

  /** How often a watchdog nudges before it gives up. */
  const MAX_FIRES := 2

  /** The mail a turn is about; tools trust it over anything the model says. */
  datatype Source = Source(messageId: string, threadId: string)

  /** One set_task_status call.  `delivered`: something was sent in this turn; `found`: the message id
      the model gave names a mail. */
  datatype StatusCall = StatusCall(status: Status, messageId: string, delivered: bool, found: bool, now: int)

  /** `nudges` counts a thread's nudges since its watchdog was last armed outside a nudge turn. */
  datatype State = State(entries: seq<Snooze>, status: map<string, Status>, nudges: map<string, nat>)

  /** The deadline in minutes and the thread root of each message id. */
  datatype Env = Env(minutes: int, root: string -> string)

  function StatusOf(st: State, threadId: string): Status {
    if threadId in st.status then st.status[threadId] else NoStatus
  }

  function Nudged(st: State, threadId: string): nat {
    if threadId in st.nudges then st.nudges[threadId] else 0
  }

  // ----- set_task_status -----

  predicate Refused(c: StatusCall) {
    !c.delivered && (c.status == Waiting || c.status == Complete)
  }

  predicate Arms(env: Env, c: StatusCall, src: Source) {
    c.status == Waiting && env.minutes > 0 && c.delivered && src.messageId != ""
  }

  function SetTaskStatus(env: Env, st: State, c: StatusCall, src: Source, nudge: bool): State {
    if Refused(c) || !c.found then st
    else
      var st' := st.(status := st.status[env.root(c.messageId) := c.status]);
      if !Arms(env, c, src) then st'
      else
        st'.(entries := Arm(st.entries, src.messageId, src.threadId, env.minutes, nudge, c.now),
             nudges := if !nudge && CanArm(src.messageId, src.threadId, env.minutes)
                       then st.nudges[src.threadId := 0] else st.nudges)
  }

  function StatusCalls(env: Env, st: State, calls: seq<StatusCall>, src: Source, nudge: bool): State
    decreases |calls|
  {
    if calls == [] then st
    else StatusCalls(env, SetTaskStatus(env, st, calls[0], src, nudge), calls[1..], src, nudge)
  }

  // ----- runWatchdog -----

  function Reschedule(env: Env, st: State, e: Snooze, now: int): State {
    st.(entries := Save(st.entries, e.(unSnooze := now + env.minutes)))
  }

  function Drop(st: State, e: Snooze): State {
    st.(entries := Delete(st.entries, e))
  }

  function StartNudge(env: Env, st: State, e: Snooze, now: int): State {
    Reschedule(env, st, e.(fires := e.fires + 1), now)
      .(nudges := st.nudges[e.threadId := Nudged(st, e.threadId) + 1])
  }

  /** `memoryRead`: reading the thread's memory succeeded; `calls`: what the nudged model does. */
  function RunWatchdog(env: Env, st: State, e: Snooze, now: int, memoryRead: bool, calls: seq<StatusCall>): State {
    if !memoryRead then Reschedule(env, st, e, now)
    else if StatusOf(st, e.threadId) != Waiting then Drop(st, e)
    else if e.fires >= MAX_FIRES then Drop(st.(status := st.status[env.root(e.messageId) := Error]), e)
    else
      var nudged := StatusCalls(env, StartNudge(env, st, e, now), calls,
                                Source(e.messageId, env.root(e.messageId)), true);
      if StatusOf(nudged, e.threadId) != Waiting
      then Drop(nudged, e.(fires := e.fires + 1, unSnooze := now + env.minutes))
      else nudged
  }

  class Scheduler {
    const store: Store
    var status: map<string, Status>
    ghost var nudges: map<string, nat>

    ghost function View(): State
      reads this, store
    {
      State(store.entries, status, nudges)
    }

    constructor (store: Store)
      ensures this.store == store && status == map[] && nudges == map[]
    {
      this.store := store;
      status := map[];
      nudges := map[];
    }

    method SetStatus(env: Env, c: StatusCall, src: Source, nudge: bool) returns (ok: bool)
      modifies this, store
      ensures View() == SetTaskStatus(env, old(View()), c, src, nudge)
      ensures ok <==> !Refused(c) && c.found
    {
      if !c.delivered {
        if c.status == Waiting || c.status == Complete {
          return false;
        }
      }
      if !c.found {
        return false;
      }
      status := status[env.root(c.messageId) := c.status];
      if c.status == Waiting && env.minutes > 0 && c.delivered {
        if src.messageId != "" {
          store.ArmWaitingWatchdog(src.messageId, src.threadId, env.minutes, nudge, c.now);
          if !nudge && CanArm(src.messageId, src.threadId, env.minutes) {
            nudges := nudges[src.threadId := 0];
          }
        }
      }
      return true;
    }

    method RescheduleWatchdog(env: Env, e: Snooze, now: int)
      requires e.threadId != ""
      modifies this, store
      ensures View() == Reschedule(env, old(View()), e, now)
    {
      var _ := store.SaveSnooze(e.(unSnooze := now + env.minutes), None);
    }

    /** The tool calls of a replayed turn: the snooze tools are withheld from it. */
    method ReplayTurn(env: Env, calls: seq<StatusCall>, src: Source, nudge: bool)
      modifies this, store
      ensures View() == StatusCalls(env, old(View()), calls, src, nudge)
    {
      for i := 0 to |calls|
        invariant StatusCalls(env, View(), calls[i..], src, nudge) == StatusCalls(env, old(View()), calls, src, nudge)
      {
        assert calls[i..][1..] == calls[i + 1..];
        var _ := SetStatus(env, calls[i], src, nudge);
      }
    }

    method FireWatchdog(env: Env, e: Snooze, now: int, memoryRead: bool, calls: seq<StatusCall>)
      requires e.threadId != ""
      modifies this, store
      ensures View() == RunWatchdog(env, old(View()), e, now, memoryRead, calls)
    {
      hide StatusCalls, Save, Delete;
      if !memoryRead {
        RescheduleWatchdog(env, e, now);
        return;
      }
      if e.threadId !in status || status[e.threadId] != Waiting {
        store.DeleteSnooze(e);
        return;
      }
      if e.fires >= MAX_FIRES {
        status := status[env.root(e.messageId) := Error];
        store.DeleteSnooze(e);
        return;
      }
      ghost var before := View();
      var nudged := e.(fires := e.fires + 1);
      RescheduleWatchdog(env, nudged, now);
      nudges := nudges[e.threadId := Nudged(before, e.threadId) + 1];
      assert View() == StartNudge(env, before, e, now);
      ReplayTurn(env, calls, Source(e.messageId, env.root(e.messageId)), true);
      if e.threadId !in status || status[e.threadId] != Waiting {
        store.DeleteSnooze(nudged.(unSnooze := now + env.minutes));
      }
    }
  }

  // ----- Whole runs -----

  datatype Act = CallStatus(call: StatusCall) | Schedule(task: Snooze) | Cancel(messageId: string)

  datatype Event =
    | MailTurn(src: Source, acts: seq<Act>)
    | ScheduledTurn(e: Snooze, calls: seq<StatusCall>, advance: bool, tick: Option<int>)
    | WatchdogFires(e: Snooze, now: int, memoryRead: bool, calls: seq<StatusCall>)
    | AutoReply(threadId: string)

  function TakeAct(env: Env, st: State, act: Act, src: Source): State {
    match act
    case CallStatus(call) => SetTaskStatus(env, st, call, src, false)
    case Schedule(task) => st.(entries := Save(st.entries, task))
    case Cancel(messageId) => st.(entries := Delete(st.entries, Snooze("", messageId, false, false, "", 0, 0)))
  }

  function TakeActs(env: Env, st: State, acts: seq<Act>, src: Source): State
    decreases |acts|
  {
    if acts == [] then st else TakeActs(env, TakeAct(env, st, acts[0], src), acts[1..], src)
  }

  function Step(env: Env, st: State, event: Event): State {
    match event
    case MailTurn(src, acts) => TakeActs(env, st, acts, src)
    case ScheduledTurn(e, calls, advance, tick) =>
      if e !in st.entries || e.watchdog then st
      else
        var after := StatusCalls(env, st, calls, Source(e.messageId, env.root(e.messageId)), false);
        if advance then after.(entries := Advance(after.entries, e, tick)) else after
    case WatchdogFires(e, now, memoryRead, calls) =>
      if e !in st.entries || !e.watchdog then st else RunWatchdog(env, st, e, now, memoryRead, calls)
    case AutoReply(threadId) =>
      State(Abort(st.entries, threadId), st.status[threadId := NoStatus], st.nudges)
  }

  function Steps(env: Env, st: State, events: seq<Event>): State
    decreases |events|
  {
    if events == [] then st else Steps(env, Step(env, st, events[0]), events[1..])
  }

  /** Mail is threaded by its root; scheduled tasks are ordinary entries on the root of their mail. */
  ghost predicate GoodAct(env: Env, act: Act) {
    act.Schedule? ==> !act.task.watchdog && RootedEntry(act.task, env.root)
  }

  ghost predicate GoodEvent(env: Env, event: Event) {
    event.MailTurn? ==>
      && event.src.threadId == env.root(event.src.messageId)
      && forall i :: 0 <= i < |event.acts| ==> GoodAct(env, event.acts[i])
  }

  ghost predicate OnBudget(st: State, e: Snooze) {
    e.watchdog ==> e.messageId != "" && 0 <= e.fires <= MAX_FIRES && e.fires == Nudged(st, e.threadId)
  }

  /** One entry per kind and thread on its mail's thread root; each stored count is the number of
      nudges since the last real re-arm and within the budget. */
  ghost predicate Inv(env: Env, st: State) {
    && Unique(st.entries) && Rooted(st.entries, env.root)
    && (forall e :: e in st.entries ==> OnBudget(st, e))
    && (forall threadId :: Nudged(st, threadId) <= MAX_FIRES)
  }

  lemma {:induction false} FindMeaning(es: seq<Snooze>, watchdog: bool, threadId: string)
    ensures Find(es, watchdog, threadId).Some? ==>
              var e := Find(es, watchdog, threadId).value;
              e in es && SameThread(e, watchdog, threadId)
    ensures Find(es, watchdog, threadId).None? ==> forall e :: e in es ==> !SameThread(e, watchdog, threadId)
  {
    if es != [] {
      FindMeaning(es[1..], watchdog, threadId);
      assert es == [es[0]] + es[1..];
    }
  }

  ghost predicate HasWatchdog(st: State, threadId: string) {
    exists e :: e in st.entries && e.watchdog && e.threadId == threadId
  }

  /** Saving a watchdog whose count matches the books keeps the invariant. */
  lemma {:induction false} SaveKeepsInv(env: Env, st: State, s: Snooze, nudges: map<string, nat>)
    requires Inv(env, st) && RootedEntry(s, env.root)
    requires OnBudget(st.(nudges := nudges), s)
    requires forall t :: (t != s.threadId || !s.watchdog) ==> Nudged(st.(nudges := nudges), t) == Nudged(st, t)
    requires Nudged(st.(nudges := nudges), s.threadId) <= MAX_FIRES
    ensures Inv(env, st.(entries := Save(st.entries, s), nudges := nudges))
    ensures s in Save(st.entries, s)
  {
    SaveMeaning(st.entries, s, env.root);
    OthersMembers(st.entries, s.watchdog, s.threadId);
    var st' := st.(entries := Save(st.entries, s), nudges := nudges);
    forall e | e in st'.entries ensures OnBudget(st', e) {
      if e != s {
        assert e in st.entries && OnBudget(st, e);
      }
    }
    forall t ensures Nudged(st', t) <= MAX_FIRES {
      assert Nudged(st, t) <= MAX_FIRES;
    }
  }

  lemma {:induction false} DeleteKeepsInv(env: Env, st: State, s: Snooze)
    requires Inv(env, st)
    ensures Inv(env, Drop(st, s))
  {
    DeleteMembers(st.entries, s);
    var st' := Drop(st, s);
    forall e | e in st'.entries ensures OnBudget(st', e) {
      assert OnBudget(st, e);
    }
    forall t ensures Nudged(st', t) <= MAX_FIRES {
      assert Nudged(st, t) <= MAX_FIRES;
    }
  }

  lemma {:induction false} StatusCallKeepsInv(env: Env, st: State, c: StatusCall, src: Source, nudge: bool)
    requires Inv(env, st) && src.threadId == env.root(src.messageId)
    requires nudge ==> HasWatchdog(st, src.threadId)
    ensures Inv(env, SetTaskStatus(env, st, c, src, nudge))
    ensures nudge ==> HasWatchdog(SetTaskStatus(env, st, c, src, nudge), src.threadId)
  {
    var st' := SetTaskStatus(env, st, c, src, nudge);
    if !Refused(c) && c.found && Arms(env, c, src) && CanArm(src.messageId, src.threadId, env.minutes) {
      FindMeaning(st.entries, true, src.threadId);
      var s := Snooze(src.threadId, src.messageId, true, true, "", c.now + env.minutes,
                      ArmedFires(st.entries, src.threadId, nudge));
      if nudge {
        var e := Find(st.entries, true, src.threadId).value;
        assert OnBudget(st, e);
      }
      SaveKeepsInv(env, st, s, st'.nudges);
      assert st'.entries == Save(st.entries, s);
      var saved := st.(entries := Save(st.entries, s), nudges := st'.nudges);
      SameBooks(env, saved, st');
    } else {
      SameBooks(env, st, st');
    }
  }

  /** Statuses do not matter for the invariant. */
  lemma {:induction false} SameBooks(env: Env, a: State, b: State)
    requires Inv(env, a) && a.entries == b.entries && a.nudges == b.nudges
    ensures Inv(env, b)
  {
    forall e | e in b.entries ensures OnBudget(b, e) { assert OnBudget(a, e); }
    forall t ensures Nudged(b, t) <= MAX_FIRES { assert Nudged(a, t) <= MAX_FIRES; }
  }

  lemma {:induction false} StatusCallsKeepInv(env: Env, st: State, calls: seq<StatusCall>, src: Source, nudge: bool)
    requires Inv(env, st) && src.threadId == env.root(src.messageId)
    requires nudge ==> HasWatchdog(st, src.threadId)
    ensures Inv(env, StatusCalls(env, st, calls, src, nudge))
    decreases |calls|
  {
    if calls != [] {
      StatusCallKeepsInv(env, st, calls[0], src, nudge);
      StatusCallsKeepInv(env, SetTaskStatus(env, st, calls[0], src, nudge), calls[1..], src, nudge);
    }
  }

  lemma {:induction false} ActsKeepInv(env: Env, st: State, acts: seq<Act>, src: Source)
    requires Inv(env, st) && src.threadId == env.root(src.messageId)
    requires forall i :: 0 <= i < |acts| ==> GoodAct(env, acts[i])
    ensures Inv(env, TakeActs(env, st, acts, src))
    decreases |acts|
  {
    if acts != [] {
      assert GoodAct(env, acts[0]);
      match acts[0] {
        case CallStatus(call) =>
          StatusCallKeepsInv(env, st, call, src, false);
        case Schedule(task) =>
          SaveKeepsInv(env, st, task, st.nudges);
          SameBooks(env, st.(entries := Save(st.entries, task), nudges := st.nudges), TakeAct(env, st, acts[0], src));
        case Cancel(messageId) =>
          DeleteKeepsInv(env, st, Snooze("", messageId, false, false, "", 0, 0));
      }
      ActsKeepInv(env, TakeAct(env, st, acts[0], src), acts[1..], src);
    }
  }

  lemma {:induction false} WatchdogKeepsInv(env: Env, st: State, e: Snooze, now: int, memoryRead: bool,
                                            calls: seq<StatusCall>)
    requires Inv(env, st) && e in st.entries && e.watchdog
    ensures Inv(env, RunWatchdog(env, st, e, now, memoryRead, calls))
  {
    hide Save, Delete, StatusCalls, StartNudge, Inv;
    if !memoryRead {
      RescheduleKeepsInv(env, st, e, now);
    } else if StatusOf(st, e.threadId) != Waiting {
      DeleteKeepsInv(env, st, e);
    } else if e.fires >= MAX_FIRES {
      var marked := st.(status := st.status[env.root(e.messageId) := Error]);
      SameBooks(env, st, marked);
      DeleteKeepsInv(env, marked, e);
    } else {
      NudgeKeepsInv(env, st, e, now, calls);
    }
  }

  lemma {:induction false} RescheduleKeepsInv(env: Env, st: State, e: Snooze, now: int)
    requires Inv(env, st) && e in st.entries && e.watchdog
    ensures Inv(env, Reschedule(env, st, e, now))
  {
    assert OnBudget(st, e) && RootedEntry(e, env.root) && Nudged(st, e.threadId) <= MAX_FIRES;
    var later := e.(unSnooze := now + env.minutes);
    assert OnBudget(st, later) && RootedEntry(later, env.root);
    hide Inv, OnBudget, RootedEntry, Nudged, Save;
    assert st.(nudges := st.nudges) == st;
    SaveKeepsInv(env, st, later, st.nudges);
  }

  lemma {:induction false} StartKeepsInv(env: Env, st: State, e: Snooze, now: int)
    requires Inv(env, st) && e in st.entries && e.watchdog && e.fires < MAX_FIRES
    ensures var next := e.(fires := e.fires + 1, unSnooze := now + env.minutes);
            Inv(env, StartNudge(env, st, e, now)) && next in StartNudge(env, st, e, now).entries
  {
    assert OnBudget(st, e) && RootedEntry(e, env.root);
    var next := e.(fires := e.fires + 1, unSnooze := now + env.minutes);
    var started := StartNudge(env, st, e, now);
    SaveKeepsInv(env, st, next, started.nudges);
    assert started == st.(entries := Save(st.entries, next), nudges := started.nudges);
  }

  lemma {:induction false} NudgeKeepsInv(env: Env, st: State, e: Snooze, now: int, calls: seq<StatusCall>)
    requires Inv(env, st) && e in st.entries && e.watchdog && e.fires < MAX_FIRES
    ensures var next := e.(fires := e.fires + 1, unSnooze := now + env.minutes);
            var nudged := StatusCalls(env, StartNudge(env, st, e, now), calls,
                                      Source(e.messageId, env.root(e.messageId)), true);
            Inv(env, nudged) && Inv(env, Drop(nudged, next))
  {
    assert RootedEntry(e, env.root);
    var next := e.(fires := e.fires + 1, unSnooze := now + env.minutes);
    var started := StartNudge(env, st, e, now);
    var src := Source(e.messageId, env.root(e.messageId));
    StartKeepsInv(env, st, e, now);
    StatusCallsKeepInv(env, started, calls, src, true);
    DeleteKeepsInv(env, StatusCalls(env, started, calls, src, true), next);
  }

  lemma {:induction false} StepKeepsInv(env: Env, st: State, event: Event)
    requires Inv(env, st) && GoodEvent(env, event)
    ensures Inv(env, Step(env, st, event))
  {
    match event
    case MailTurn(src, acts) => ActsKeepInv(env, st, acts, src);
    case ScheduledTurn(e, calls, advance, tick) =>
      if e in st.entries && !e.watchdog {
        StatusCallsKeepInv(env, st, calls, Source(e.messageId, env.root(e.messageId)), false);
        var after := StatusCalls(env, st, calls, Source(e.messageId, env.root(e.messageId)), false);
        DeleteKeepsInv(env, after, e);
        if tick.Some? {
          assert RootedEntry(e, env.root);
          SaveKeepsInv(env, after, e.(unSnooze := tick.value), after.nudges);
        }
      }
    case WatchdogFires(e, now, memoryRead, calls) =>
      if e in st.entries && e.watchdog {
        WatchdogKeepsInv(env, st, e, now, memoryRead, calls);
      }
    case AutoReply(threadId) =>
      AbortMembers(st.entries, threadId);
      var st' := Step(env, st, event);
      forall e | e in st'.entries ensures OnBudget(st', e) {
        assert OnBudget(st, e);
      }
      forall t ensures Nudged(st', t) <= MAX_FIRES {
        assert Nudged(st, t) <= MAX_FIRES;
      }
  }

  /** In any run a thread is nudged at most MAX_FIRES times between two re-arms made outside a nudge
      turn, and every stored count stays within the budget. */
  lemma {:induction false} NudgesStayBounded(env: Env, st: State, events: seq<Event>)
    requires Inv(env, st) && forall i :: 0 <= i < |events| ==> GoodEvent(env, events[i])
    ensures Inv(env, Steps(env, st, events))
    ensures forall threadId :: Nudged(Steps(env, st, events), threadId) <= MAX_FIRES
    decreases |events|
  {
    if events != [] {
      assert GoodEvent(env, events[0]);
      StepKeepsInv(env, st, events[0]);
      NudgesStayBounded(env, Step(env, st, events[0]), events[1..]);
    }
  }

  /** Once the budget is used up, the next fire while the thread still waits marks it as failed and
      removes its watchdog. */
  lemma {:induction false} ExhaustedWatchdogGivesUp(env: Env, st: State, e: Snooze, now: int, calls: seq<StatusCall>)
    requires Inv(env, st) && e in st.entries && e.watchdog
    requires Nudged(st, e.threadId) == MAX_FIRES && StatusOf(st, e.threadId) == Waiting
    ensures var st' := RunWatchdog(env, st, e, now, true, calls);
            && StatusOf(st', e.threadId) == Error
            && !HasWatchdog(st', e.threadId)
            && st'.entries == Others(st.entries, true, e.threadId)
            && st'.nudges == st.nudges
  {
    assert OnBudget(st, e) && RootedEntry(e, env.root);
    DeleteMeaning(st.entries, e, env.root);
    OthersMembers(st.entries, true, e.threadId);
  }

  /** A nudge does not buy new nudges: whatever the model does in it, a watchdog that is left carries
      the count including this nudge. */
  lemma {:induction false} NudgeKeepsCount(env: Env, st: State, e: Snooze, now: int, calls: seq<StatusCall>, f: Snooze)
    requires Inv(env, st) && e in st.entries && e.watchdog
    requires StatusOf(st, e.threadId) == Waiting && e.fires < MAX_FIRES
    requires f in RunWatchdog(env, st, e, now, true, calls).entries && f.watchdog && f.threadId == e.threadId
    ensures f.fires == e.fires + 1
  {
    assert OnBudget(st, e) && RootedEntry(e, env.root);
    WatchdogKeepsInv(env, st, e, now, true, calls);
    var st' := RunWatchdog(env, st, e, now, true, calls);
    assert OnBudget(st', f);
    var started := StartNudge(env, st, e, now);
    NudgeCallsKeepBooks(env, started, calls, Source(e.messageId, env.root(e.messageId)));
  }

  lemma {:induction false} NudgeCallsKeepBooks(env: Env, st: State, calls: seq<StatusCall>, src: Source)
    ensures StatusCalls(env, st, calls, src, true).nudges == st.nudges
    decreases |calls|
  {
    if calls != [] {
      NudgeCallsKeepBooks(env, SetTaskStatus(env, st, calls[0], src, true), calls[1..], src);
    }
  }

  /** A turn that delivered nothing cannot park or close its task. */
  lemma {:induction false} NothingDeliveredNothingClosed(env: Env, st: State, c: StatusCall, src: Source, nudge: bool)
    requires !c.delivered
    ensures var st' := SetTaskStatus(env, st, c, src, nudge);
            && st'.entries == st.entries
            && forall t :: StatusOf(st', t) == StatusOf(st, t) || StatusOf(st', t) !in {Waiting, Complete}
  {
  }

  /** A mail that arrives clears no status: a thread's status after a mail turn is the one before, unless a
      status call of the turn that is carried out names a mail of that thread. */
  lemma {:induction false} OnlyCallsChangeStatus(env: Env, st: State, acts: seq<Act>, src: Source, threadId: string)
    requires forall i :: 0 <= i < |acts| && acts[i].CallStatus? ==> !SetsStatusOf(env, acts[i].call, threadId)
    ensures StatusOf(Step(env, st, MailTurn(src, acts)), threadId) == StatusOf(st, threadId)
    decreases |acts|
  {
    if acts != [] {
      assert acts[0].CallStatus? ==> !SetsStatusOf(env, acts[0].call, threadId);
      OnlyCallsChangeStatus(env, TakeAct(env, st, acts[0], src), acts[1..], src, threadId);
    }
  }

  predicate SetsStatusOf(env: Env, c: StatusCall, threadId: string) {
    !Refused(c) && c.found && env.root(c.messageId) == threadId
  }

  /** The last such call decides. */
  lemma {:induction false} LastCallDecides(env: Env, st: State, acts: seq<Act>, src: Source, c: StatusCall,
                                           rest: seq<Act>, threadId: string)
    requires SetsStatusOf(env, c, threadId)
    requires forall i :: 0 <= i < |rest| && rest[i].CallStatus? ==> !SetsStatusOf(env, rest[i].call, threadId)
    ensures StatusOf(Step(env, st, MailTurn(src, acts + [CallStatus(c)] + rest)), threadId) == c.status
    decreases |acts|
  {
    var all := acts + [CallStatus(c)] + rest;
    if acts == [] {
      assert all[0] == CallStatus(c) && all[1..] == rest;
      OnlyCallsChangeStatus(env, TakeAct(env, st, CallStatus(c), src), rest, src, threadId);
    } else {
      assert all[0] == acts[0] && all[1..] == acts[1..] + [CallStatus(c)] + rest;
      LastCallDecides(env, TakeAct(env, st, acts[0], src), acts[1..], src, c, rest, threadId);
    }
  }
}
