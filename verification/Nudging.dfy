/** What a firing watchdog and a status call do, case by case (cmd/kikubot/main.go: runWatchdog, handleAutoReply;
    internal/tools/status.go: setTaskStatus; internal/services/snooze.go: ArmWaitingWatchdog). */
module Nudging {
  import opened SnoozeStore
  import opened Strings
  import opened Watchdog

  // ----- A status call -----

  predicate HasInk(s: string) {
    exists i :: 0 <= i < |s| && !IsSpace(s[i])
  }

  /** Waiting, delivered, with a deadline configured and a known mail to wake up for. */
  predicate Arming(env: Env, c: StatusCall, src: Source) {
    c.status == Waiting && c.delivered && c.found && env.minutes > 0 && HasInk(src.messageId) && HasInk(src.threadId)
  }

  /** Outside a nudge the count restarts; in a nudge it is that of the thread's watchdog, if there is one. */
  ghost predicate CountsOn(es: seq<Snooze>, threadId: string, nudge: bool, fires: int) {
    if nudge && exists w :: w in es && w.watchdog && w.threadId == threadId
    then exists w :: w in es && w.watchdog && w.threadId == threadId && w.fires == fires
    else fires == 0
  }

  lemma {:induction false} BlankHasNoInk(s: string)
    ensures IsBlank(s) <==> !HasInk(s)
  {
  }

  lemma {:induction false} CountIsKept(es: seq<Snooze>, threadId: string, nudge: bool)
    ensures CountsOn(es, threadId, nudge, ArmedFires(es, threadId, nudge))
  {
    FindMeaning(es, true, threadId);
  }

  /** A status call is refused if it claims waiting or complete and nothing was delivered, or if it names no known
      mail.  Otherwise the thread of the mail it names gets the status.  A watchdog is armed exactly if it is
      for waiting, delivered, and the mail of the turn is known; it replaces the thread's watchdog, is due after
      the deadline and counts on only in a nudge. */
  lemma {:induction false} StatusCallMeaning(env: Env, st: State, c: StatusCall, src: Source, nudge: bool)
    returns (fires: int)
    requires Inv(env, st) && src.threadId == env.root(src.messageId)
    ensures var st' := SetTaskStatus(env, st, c, src, nudge);
            if !c.found || (!c.delivered && (c.status == Waiting || c.status == Complete)) then st' == st
            else
              && st'.status == st.status[env.root(c.messageId) := c.status]
              && CountsOn(st.entries, src.threadId, nudge, fires)
              && st'.entries == (if Arming(env, c, src)
                                 then Others(st.entries, true, src.threadId)
                                      + [Snooze(src.threadId, src.messageId, true, true, "", c.now + env.minutes,
                                                fires)]
                                 else st.entries)
              && st'.nudges == (if Arming(env, c, src) && !nudge then st.nudges[src.threadId := 0] else st.nudges)
  {
    fires := ArmedFires(st.entries, src.threadId, nudge);
    CountIsKept(st.entries, src.threadId, nudge);
    BlankHasNoInk(src.messageId);
    BlankHasNoInk(src.threadId);
    if Arming(env, c, src) {
      var s := Snooze(src.threadId, src.messageId, true, true, "", c.now + env.minutes, fires);
      assert src.threadId != "" && src.messageId != "";
      SaveMeaning(st.entries, s, env.root);
    }
  }

  // ----- A watchdog fires -----

  /** If the memory cannot be read, the watchdog is put off by the deadline, with its count. */
  lemma {:induction false} UnreadIsPutOff(env: Env, st: State, e: Snooze, now: int, calls: seq<StatusCall>)
    requires Inv(env, st) && e in st.entries && e.watchdog
    ensures RunWatchdog(env, st, e, now, false, calls)
         == st.(entries := Others(st.entries, true, e.threadId) + [e.(unSnooze := now + env.minutes)])
  {
    assert RootedEntry(e, env.root);
    SaveMeaning(st.entries, e.(unSnooze := now + env.minutes), env.root);
  }

  /** If the thread does not wait any more, the watchdog is removed and nothing else happens, whatever the model
      would have done and however often it was nudged. */
  lemma {:induction false} WatchdogStandsDown(env: Env, st: State, e: Snooze, now: int, calls: seq<StatusCall>)
    requires Inv(env, st) && e in st.entries && e.watchdog && StatusOf(st, e.threadId) != Waiting
    ensures RunWatchdog(env, st, e, now, true, calls) == st.(entries := Others(st.entries, true, e.threadId))
  {
    assert RootedEntry(e, env.root);
    DeleteMeaning(st.entries, e, env.root);
  }

  /** Before the model is nudged, its watchdog is put off with one more fire on its count. */
  lemma {:induction false} NudgeStarts(env: Env, st: State, e: Snooze, now: int)
    requires Inv(env, st) && e in st.entries && e.watchdog
    ensures var put := e.(fires := e.fires + 1, unSnooze := now + env.minutes);
            StartNudge(env, st, e, now)
            == st.(entries := Others(st.entries, true, e.threadId) + [put],
                   nudges := st.nudges[e.threadId := Nudged(st, e.threadId) + 1])
  {
    assert RootedEntry(e, env.root);
    SaveMeaning(st.entries, e.(fires := e.fires + 1, unSnooze := now + env.minutes), env.root);
  }

  lemma {:induction false} NudgedTurn(env: Env, st: State, calls: seq<StatusCall>, src: Source)
    requires Inv(env, st) && src.threadId == env.root(src.messageId) && HasWatchdog(st, src.threadId)
    ensures var end := StatusCalls(env, st, calls, src, true);
            Inv(env, end) && HasWatchdog(end, src.threadId)
    decreases |calls|
  {
    if calls != [] {
      StatusCallKeepsInv(env, st, calls[0], src, true);
      NudgedTurn(env, SetTaskStatus(env, st, calls[0], src, true), calls[1..], src);
    }
  }

  /** The state after the model has followed up, before the watchdog is looked at again. */
  function FollowedUp(env: Env, st: State, e: Snooze, now: int, calls: seq<StatusCall>): State {
    StatusCalls(env, StartNudge(env, st, e, now), calls, Source(e.messageId, env.root(e.messageId)), true)
  }

  /** A watchdog of a waiting thread with nudges left nudges the model: what it does takes effect, and then the
      thread has a watchdog exactly if it is waiting; nothing else is removed. */
  lemma {:induction false} NudgeMeaning(env: Env, st: State, e: Snooze, now: int, calls: seq<StatusCall>)
    requires Inv(env, st) && e in st.entries && e.watchdog
    requires StatusOf(st, e.threadId) == Waiting && e.fires < 2
    ensures var turned, end := FollowedUp(env, st, e, now, calls), RunWatchdog(env, st, e, now, true, calls);
            && end.status == turned.status && end.nudges == turned.nudges
            && end.entries == (if StatusOf(end, e.threadId) == Waiting then turned.entries
                               else Others(turned.entries, true, e.threadId))
            && (HasWatchdog(end, e.threadId) <==> StatusOf(end, e.threadId) == Waiting)
  {
    var put := e.(fires := e.fires + 1, unSnooze := now + env.minutes);
    var turned := FollowedUp(env, st, e, now, calls);
    TurnedIsGood(env, st, e, now, calls);
    hide StatusCalls, StartNudge, Save, Delete, RootedEntry, Inv, Others, HasWatchdog, FollowedUp;
    DroppedFrom(env, turned, put);
    assert RunWatchdog(env, st, e, now, true, calls)
        == if StatusOf(turned, e.threadId) != Waiting then Drop(turned, put) else turned by {
      NudgeBody(env, st, e, now, calls);
    }
  }

  lemma {:induction false} NudgeBody(env: Env, st: State, e: Snooze, now: int, calls: seq<StatusCall>)
    requires StatusOf(st, e.threadId) == Waiting && e.fires < 2
    ensures var turned := FollowedUp(env, st, e, now, calls);
            RunWatchdog(env, st, e, now, true, calls)
            == if StatusOf(turned, e.threadId) != Waiting
               then Drop(turned, e.(fires := e.fires + 1, unSnooze := now + env.minutes)) else turned
  {
  }

  lemma {:induction false} TurnedIsGood(env: Env, st: State, e: Snooze, now: int, calls: seq<StatusCall>)
    requires Inv(env, st) && e in st.entries && e.watchdog && e.fires < 2
    ensures var put, turned := e.(fires := e.fires + 1, unSnooze := now + env.minutes),
                               FollowedUp(env, st, e, now, calls);
            Inv(env, turned) && RootedEntry(put, env.root) && HasWatchdog(turned, e.threadId)
  {
    assert RootedEntry(e, env.root);
    var src, started := Source(e.messageId, env.root(e.messageId)), StartNudge(env, st, e, now);
    var put := e.(fires := e.fires + 1, unSnooze := now + env.minutes);
    StartKeepsInv(env, st, e, now);
    assert put in started.entries;
    hide StatusCalls, StartNudge, Inv;
    NudgedTurn(env, started, calls, src);
  }

  lemma {:induction false} DroppedFrom(env: Env, st: State, e: Snooze)
    requires Inv(env, st) && e.watchdog && RootedEntry(e, env.root)
    ensures Drop(st, e) == st.(entries := Others(st.entries, true, e.threadId))
    ensures !HasWatchdog(Drop(st, e), e.threadId)
  {
    DeleteMeaning(st.entries, e, env.root);
    OthersMembers(st.entries, true, e.threadId);
  }

  /** A watchdog that has nudged twice gives up: the thread of its mail is failed and the watchdog removed. */
  lemma {:induction false} WatchdogGivesUp(env: Env, st: State, e: Snooze, now: int, calls: seq<StatusCall>)
    requires Inv(env, st) && e in st.entries && e.watchdog
    requires StatusOf(st, e.threadId) == Waiting && e.fires >= 2
    ensures RunWatchdog(env, st, e, now, true, calls)
         == State(Others(st.entries, true, e.threadId), st.status[e.threadId := Error], st.nudges)
  {
    assert OnBudget(st, e) && RootedEntry(e, env.root);
    DeleteMeaning(st.entries, e, env.root);
  }

  // ----- The other events -----

  /** An auto-reply clears the status of its thread and removes exactly its watchdog and one-shot entries. */
  lemma {:induction false} AutoReplyMeaning(env: Env, st: State, threadId: string)
    ensures var st' := Step(env, st, AutoReply(threadId));
            && StatusOf(st', threadId) == NoStatus && st'.nudges == st.nudges
            && (forall t :: t != threadId ==> StatusOf(st', t) == StatusOf(st, t))
            && forall e :: e in st'.entries <==>
                 e in st.entries && (e.threadId != threadId || (!e.watchdog && !e.once))
  {
    AbortMembers(st.entries, threadId);
  }

  /** A scheduled turn: the status calls of the model, then a one-shot task is removed and a recurring one moved
      to its next tick; with no tick, or if the run broke off, it stays as it is. */
  lemma {:induction false} ScheduledMeaning(env: Env, st: State, e: Snooze, calls: seq<StatusCall>, advance: bool,
                                            tick: Option<int>)
    requires Inv(env, st) && e in st.entries && !e.watchdog
    ensures var turned := StatusCalls(env, st, calls, Source(e.messageId, env.root(e.messageId)), false);
            var end := Step(env, st, ScheduledTurn(e, calls, advance, tick));
            end == turned.(entries := if !advance || (!e.once && tick.None?) then turned.entries
                                      else Others(turned.entries, false, e.threadId)
                                           + if e.once then [] else [e.(unSnooze := tick.value)])
  {
    assert RootedEntry(e, env.root);
    var src := Source(e.messageId, env.root(e.messageId));
    StatusCallsKeepInv(env, st, calls, src, false);
    var turned := StatusCalls(env, st, calls, src, false);
    DeleteMeaning(turned.entries, e, env.root);
    if tick.Some? {
      SaveMeaning(turned.entries, e.(unSnooze := tick.value), env.root);
    }
    assert Others(turned.entries, false, e.threadId) + [] == Others(turned.entries, false, e.threadId);
  }

  /** The snooze tools of a mail turn: a schedule replaces the scheduled entry of its thread, a cancellation those
      of its mail, and neither touches a watchdog, a status or a count. */
  lemma {:induction false} SnoozeToolMeaning(env: Env, st: State, act: Act, src: Source)
    requires Inv(env, st) && !act.CallStatus? && GoodAct(env, act)
    ensures TakeAct(env, st, act, src).status == st.status && TakeAct(env, st, act, src).nudges == st.nudges
    ensures act.Schedule? ==>
              TakeAct(env, st, act, src).entries == Others(st.entries, false, act.task.threadId) + [act.task]
    ensures act.Cancel? ==>
              forall e :: e in TakeAct(env, st, act, src).entries <==>
                e in st.entries && (e.watchdog || act.messageId == "" || e.messageId != act.messageId)
  {
    match act
    case Schedule(task) => SaveMeaning(st.entries, task, env.root);
    case Cancel(messageId) => WithoutMembers(st.entries, Snooze("", messageId, false, false, "", 0, 0));
    case CallStatus(_) =>
  }
}
