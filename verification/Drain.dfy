/** The loop that works off expired entries (cmd/kikubot/main.go, process). */
module Drain {
  import opened SnoozeStore
  import opened Strings
  import opened Watchdog

  /** How the run of a scheduled task ends. */
  datatype RunResult = Done | HitMaxTurns | Broke

  /** One pass of the loop: the clock reading, what the replayed model does, how the run ends, and the
      next cron tick of the entry: None when its expression does not parse, a time long past when it never
      comes (the zero time, by the contract of the cron library). */
  datatype Pass = Pass(now: int, memoryRead: bool, calls: seq<StatusCall>, result: RunResult, tick: Option<int>)

  function DueBy(es: seq<Snooze>, t: int): nat {
    if es == [] then 0 else (if es[0].unSnooze <= t then 1 else 0) + DueBy(es[1..], t)
  }

  lemma {:induction false} DueByAppend(a: seq<Snooze>, b: seq<Snooze>, t: int)
    ensures DueBy(a + b, t) == DueBy(a, t) + DueBy(b, t)
  {
    if a == [] {
      assert a + b == b;
    } else {
      assert (a + b)[1..] == a[1..] + b;
      DueByAppend(a[1..], b, t);
    }
  }

  lemma {:induction false} OldestMeaning(es: seq<Snooze>, now: int)
    ensures Oldest(es, now).None? <==> DueBy(es, now) == 0
    ensures Oldest(es, now).Some? ==>
              var s := Oldest(es, now).value;
              s in es && s.unSnooze <= now && forall e :: e in es && e.unSnooze <= now ==> s.unSnooze <= e.unSnooze
    ensures Oldest(es, now).None? ==> forall e :: e in es ==> e.unSnooze > now
  {
    if es != [] {
      OldestMeaning(es[1..], now);
      assert es == [es[0]] + es[1..];
    }
  }

  predicate DueTwin(e: Snooze, s: Snooze, t: int) {
    e.unSnooze <= t && e.watchdog == s.watchdog && e.messageId == s.messageId && e.threadId == s.threadId
  }

  /** An entry due by `t` that a deletion of `s` is meant for. */
  ghost predicate HasDue(es: seq<Snooze>, s: Snooze, t: int) {
    exists e :: e in es && DueTwin(e, s, t)
  }

  /** Deleting never adds a due entry and removes at least the one it is meant for. */
  lemma {:induction false} DeleteReducesDue(es: seq<Snooze>, s: Snooze, t: int)
    requires s.threadId != ""
    ensures OnlyLater(es, Delete(es, s), t)
    ensures HasDue(es, s, t) ==> DueBy(Delete(es, s), t) < DueBy(es, t)
  {
    WithoutReducesDue(es, s, t);
    OthersReducesDue(es, s.watchdog, s.threadId, t);
    WithoutMembers(es, s);
    DeleteMembers(es, s);
    if HasDue(es, s, t) {
      var e :| e in es && DueTwin(e, s, t);
      assert SameThread(e, s.watchdog, s.threadId);
      assert s.messageId != "" ==> SameMessage(e, s);
    }
  }

  lemma {:induction false} WithoutReducesDue(es: seq<Snooze>, s: Snooze, t: int)
    ensures DueBy(WithoutMessage(es, s), t) <= DueBy(es, t)
    ensures (exists e :: e in es && e.unSnooze <= t && SameMessage(e, s)) ==>
              DueBy(WithoutMessage(es, s), t) < DueBy(es, t)
  {
    if es != [] {
      WithoutReducesDue(es[1..], s, t);
      assert es == [es[0]] + es[1..];
      var rest := WithoutMessage(es[1..], s);
      if SameMessage(es[0], s) {
        assert WithoutMessage(es, s) == rest;
      } else {
        assert WithoutMessage(es, s)[1..] == rest;
      }
    }
  }

  lemma {:induction false} OthersReducesDue(es: seq<Snooze>, watchdog: bool, threadId: string, t: int)
    ensures DueBy(Others(es, watchdog, threadId), t) <= DueBy(es, t)
    ensures (exists e :: e in es && e.unSnooze <= t && SameThread(e, watchdog, threadId)) ==>
              DueBy(Others(es, watchdog, threadId), t) < DueBy(es, t)
  {
    if es != [] {
      OthersReducesDue(es[1..], watchdog, threadId, t);
      assert es == [es[0]] + es[1..];
      var rest := Others(es[1..], watchdog, threadId);
      if SameThread(es[0], watchdog, threadId) {
        assert Others(es, watchdog, threadId) == rest;
      } else {
        assert Others(es, watchdog, threadId)[1..] == rest;
      }
    }
  }

  /** Saving an entry that is due later has the same effect. */
  lemma {:induction false} SaveReducesDue(es: seq<Snooze>, s: Snooze, t: int)
    requires s.threadId != "" && s.unSnooze > t
    ensures OnlyLater(es, Save(es, s), t)
    ensures HasDue(es, s, t) ==> DueBy(Save(es, s), t) < DueBy(es, t)
  {
    DeleteReducesDue(es, s, t);
    DueByAppend(Delete(es, s), [s], t);
    assert [s][1..] == [];
  }

  /** Whatever is left was there before or is due only after `t`. */
  ghost predicate OnlyLater(before: seq<Snooze>, after: seq<Snooze>, t: int) {
    (forall e :: e in after ==> e in before || e.unSnooze > t) && DueBy(after, t) <= DueBy(before, t)
  }

  /** A status call of a turn before the horizon cannot add an entry due by it, and it never touches a
      scheduled task. */
  lemma {:induction false} StatusCallAddsNothingDue(env: Env, st: State, c: StatusCall, src: Source, nudge: bool,
                                                    horizon: int)
    requires c.now + env.minutes > horizon
    ensures OnlyLater(st.entries, SetTaskStatus(env, st, c, src, nudge).entries, horizon)
    ensures forall e :: e in st.entries && !e.watchdog ==> e in SetTaskStatus(env, st, c, src, nudge).entries
  {
    if !Refused(c) && c.found && Arms(env, c, src) && CanArm(src.messageId, src.threadId, env.minutes) {
      var s := Snooze(src.threadId, src.messageId, true, true, "", c.now + env.minutes,
                      ArmedFires(st.entries, src.threadId, nudge));
      DeleteMembers(st.entries, s);
      SaveReducesDue(st.entries, s, horizon);
    }
  }

  lemma {:induction false} TurnAddsNothingDue(env: Env, st: State, calls: seq<StatusCall>, src: Source, nudge: bool,
                                              horizon: int)
    requires forall i :: 0 <= i < |calls| ==> calls[i].now + env.minutes > horizon
    ensures OnlyLater(st.entries, StatusCalls(env, st, calls, src, nudge).entries, horizon)
    ensures forall e :: e in st.entries && !e.watchdog ==> e in StatusCalls(env, st, calls, src, nudge).entries
    decreases |calls|
  {
    if calls != [] {
      StatusCallAddsNothingDue(env, st, calls[0], src, nudge, horizon);
      TurnAddsNothingDue(env, SetTaskStatus(env, st, calls[0], src, nudge), calls[1..], src, nudge, horizon);
    }
  }

  /** What one pass does with the entry it picked. */
  function HandlePass(env: Env, st: State, e: Snooze, p: Pass): State {
    if e.watchdog then RunWatchdog(env, st, e, p.now, p.memoryRead, p.calls)
    else
      var after := StatusCalls(env, st, p.calls, Source(e.messageId, env.root(e.messageId)), false);
      if p.result == Broke then after else after.(entries := Advance(after.entries, e, p.tick))
  }

  /** The deadlines set in the pass lie beyond the horizon. */
  ghost predicate SetsLate(env: Env, p: Pass, horizon: int) {
    && p.now <= horizon < p.now + env.minutes
    && (forall i :: 0 <= i < |p.calls| ==> p.calls[i].now + env.minutes > horizon)
  }

  /** The next tick of the entry lies beyond the horizon. */
  predicate TicksLate(p: Pass, horizon: int) {
    p.tick.Some? && p.tick.value > horizon
  }

  lemma {:induction false} OnlyLaterChains(a: seq<Snooze>, b: seq<Snooze>, c: seq<Snooze>, t: int)
    requires OnlyLater(a, b, t) && OnlyLater(b, c, t)
    ensures OnlyLater(a, c, t)
  {
  }

  /** One due entry less, and none added. */
  ghost predicate Disposes(before: seq<Snooze>, after: seq<Snooze>, t: int) {
    OnlyLater(before, after, t) && DueBy(after, t) < DueBy(before, t)
  }

  lemma {:induction false} DisposesChains(a: seq<Snooze>, b: seq<Snooze>, c: seq<Snooze>, t: int)
    requires Disposes(a, b, t) && OnlyLater(b, c, t)
    ensures Disposes(a, c, t)
  {
    OnlyLaterChains(a, b, c, t);
  }

  lemma {:induction false} SaveDisposes(es: seq<Snooze>, e: Snooze, s: Snooze, t: int)
    requires e in es && e.unSnooze <= t && e.threadId != ""
    requires s.watchdog == e.watchdog && s.messageId == e.messageId && s.threadId == e.threadId
    ensures Disposes(es, Delete(es, s), t)
    ensures s.unSnooze > t ==> Disposes(es, Save(es, s), t)
  {
    assert HasDue(es, s, t);
    DeleteReducesDue(es, s, t);
    if s.unSnooze > t {
      SaveReducesDue(es, s, t);
    }
  }

  lemma {:induction false} WatchdogPassDisposes(env: Env, st: State, e: Snooze, p: Pass, horizon: int)
    requires e in st.entries && e.watchdog && e.threadId != "" && e.unSnooze <= horizon && SetsLate(env, p, horizon)
    ensures Disposes(st.entries, RunWatchdog(env, st, e, p.now, p.memoryRead, p.calls).entries, horizon)
  {
    hide Save, Delete, StatusCalls, Disposes;
    var after := RunWatchdog(env, st, e, p.now, p.memoryRead, p.calls).entries;
    var later := e.(unSnooze := p.now + env.minutes);
    if !p.memoryRead {
      SaveDisposes(st.entries, e, later, horizon);
      assert after == Save(st.entries, later);
    } else if StatusOf(st, e.threadId) != Waiting || e.fires >= MAX_FIRES {
      SaveDisposes(st.entries, e, e, horizon);
      assert after == Delete(st.entries, e);
    } else {
      NudgeDisposes(env, st, e, p, horizon);
    }
  }

  lemma {:induction false} NudgeDisposes(env: Env, st: State, e: Snooze, p: Pass, horizon: int)
    requires e in st.entries && e.threadId != "" && e.unSnooze <= horizon && SetsLate(env, p, horizon)
    ensures var turned := StatusCalls(env, StartNudge(env, st, e, p.now), p.calls,
                                      Source(e.messageId, env.root(e.messageId)), true).entries;
            && Disposes(st.entries, turned, horizon)
            && Disposes(st.entries, Delete(turned, e.(fires := e.fires + 1, unSnooze := p.now + env.minutes)), horizon)
  {
    var nudged := e.(fires := e.fires + 1, unSnooze := p.now + env.minutes);
    SaveDisposes(st.entries, e, nudged, horizon);
    var started := StartNudge(env, st, e, p.now);
    assert started.entries == Save(st.entries, nudged);
    var src := Source(e.messageId, env.root(e.messageId));
    NudgeTurnAddsNothing(env, st.entries, started, p.calls, src, nudged, horizon);
  }

  lemma {:induction false} NudgeTurnAddsNothing(env: Env, es: seq<Snooze>, started: State, calls: seq<StatusCall>,
                                                src: Source, nudged: Snooze, horizon: int)
    requires Disposes(es, started.entries, horizon) && nudged.threadId != ""
    requires forall i :: 0 <= i < |calls| ==> calls[i].now + env.minutes > horizon
    ensures var turned := StatusCalls(env, started, calls, src, true).entries;
            Disposes(es, turned, horizon) && Disposes(es, Delete(turned, nudged), horizon)
  {
    TurnAddsNothingDue(env, started, calls, src, true, horizon);
    var turned := StatusCalls(env, started, calls, src, true).entries;
    DisposesChains(es, started.entries, turned, horizon);
    DeleteReducesDue(turned, nudged, horizon);
    DisposesChains(es, turned, Delete(turned, nudged), horizon);
  }

  lemma {:induction false} TaskPassDisposes(env: Env, st: State, e: Snooze, p: Pass, horizon: int)
    requires e in st.entries && !e.watchdog && e.threadId != "" && e.unSnooze <= horizon && SetsLate(env, p, horizon)
    requires p.result != Broke && (e.once || TicksLate(p, horizon))
    ensures Disposes(st.entries, HandlePass(env, st, e, p).entries, horizon)
  {
    var src := Source(e.messageId, env.root(e.messageId));
    TurnAddsNothingDue(env, st, p.calls, src, false, horizon);
    var turned := StatusCalls(env, st, p.calls, src, false).entries;
    assert e in turned;
    assert HasDue(turned, e, horizon);
    if e.once {
      DeleteReducesDue(turned, e, horizon);
    } else {
      var next := e.(unSnooze := p.tick.value);
      assert HasDue(turned, next, horizon);
      SaveReducesDue(turned, next, horizon);
    }
  }

  /** A pass that does not break disposes of a due entry and adds none, if the entry is not a recurring one
      or its next tick comes after the horizon. */
  lemma {:induction false} PassDisposes(env: Env, st: State, e: Snooze, p: Pass, horizon: int)
    requires Inv(env, st) && e in st.entries && e.unSnooze <= horizon && SetsLate(env, p, horizon)
    requires e.watchdog || (p.result != Broke && (e.once || TicksLate(p, horizon)))
    ensures Disposes(st.entries, HandlePass(env, st, e, p).entries, horizon)
  {
    assert RootedEntry(e, env.root);
    if e.watchdog {
      WatchdogPassDisposes(env, st, e, p, horizon);
    } else {
      TaskPassDisposes(env, st, e, p, horizon);
    }
  }

  // ----- When an entry stays due -----

  /** An entry of the same kind and thread is left that is due by `t`. */
  ghost predicate StaysDue(es: seq<Snooze>, e: Snooze, t: int) {
    exists f :: f in es && SameThread(f, e.watchdog, e.threadId) && f.unSnooze <= t
  }

  lemma {:induction false} DeletedIsGone(es: seq<Snooze>, s: Snooze, root: string -> string, t: int)
    requires Unique(es) && Rooted(es, root) && RootedEntry(s, root)
    ensures !StaysDue(Delete(es, s), s, t)
    ensures StaysDue(Save(es, s), s, t) <==> s.unSnooze <= t
  {
    DeleteMeaning(es, s, root);
    SaveMeaning(es, s, root);
    OthersMembers(es, s.watchdog, s.threadId);
    assert s in Others(es, s.watchdog, s.threadId) + [s];
  }

  lemma {:induction false} TaskStaysDue(env: Env, st: State, e: Snooze, p: Pass, horizon: int)
    requires Inv(env, st) && e in st.entries && !e.watchdog && e.unSnooze <= horizon && SetsLate(env, p, horizon)
    ensures StaysDue(HandlePass(env, st, e, p).entries, e, horizon)
       <==> p.result == Broke || (!e.once && !TicksLate(p, horizon))
  {
    assert RootedEntry(e, env.root);
    var src := Source(e.messageId, env.root(e.messageId));
    var turned := StatusCalls(env, st, p.calls, src, false);
    TurnAddsNothingDue(env, st, p.calls, src, false, horizon);
    StatusCallsKeepInv(env, st, p.calls, src, false);
    assert e in turned.entries && SameThread(e, e.watchdog, e.threadId);
    DeletedIsGone(turned.entries, e, env.root, horizon);
    if p.tick.Some? {
      var next := e.(unSnooze := p.tick.value);
      DeletedIsGone(turned.entries, next, env.root, horizon);
      SameKindStays(Save(turned.entries, next), e, next, horizon);
    }
  }

  lemma {:induction false} SameKindStays(es: seq<Snooze>, e: Snooze, f: Snooze, t: int)
    requires e.watchdog == f.watchdog && e.threadId == f.threadId
    ensures StaysDue(es, e, t) <==> StaysDue(es, f, t)
  {
  }

  lemma {:induction false} WatchdogNeverStaysDue(env: Env, st: State, e: Snooze, p: Pass, horizon: int)
    requires Inv(env, st) && e in st.entries && e.watchdog && e.unSnooze <= horizon && SetsLate(env, p, horizon)
    ensures !StaysDue(RunWatchdog(env, st, e, p.now, p.memoryRead, p.calls).entries, e, horizon)
  {
    hide StatusCalls, StartNudge, StaysDue, Inv, Save, Delete;
    if !p.memoryRead {
      RescheduledIsLater(env, st, e, p.now, horizon);
    } else if StatusOf(st, e.threadId) != Waiting || e.fires >= MAX_FIRES {
      StoodDownIsGone(env, st, e, horizon);
    } else {
      NudgedNeverStaysDue(env, st, e, p, horizon);
    }
  }

  /** A watchdog read while nothing waits, or out of nudges, is deleted. */
  lemma {:induction false} StoodDownIsGone(env: Env, st: State, e: Snooze, t: int)
    requires Inv(env, st) && e in st.entries
    ensures !StaysDue(Drop(st, e).entries, e, t)
  {
    assert RootedEntry(e, env.root);
    DeletedIsGone(st.entries, e, env.root, t);
  }

  lemma {:induction false} RescheduledIsLater(env: Env, st: State, e: Snooze, now: int, t: int)
    requires Inv(env, st) && e in st.entries && t < now + env.minutes
    ensures !StaysDue(Reschedule(env, st, e, now).entries, e, t)
  {
    hide Unique, OnBudget;
    LaterIsGone(st.entries, e, now + env.minutes, env.root, t);
  }

  lemma {:induction false} LaterIsGone(es: seq<Snooze>, e: Snooze, due: int, root: string -> string, t: int)
    requires Unique(es) && Rooted(es, root) && e in es && t < due
    ensures !StaysDue(Save(es, e.(unSnooze := due)), e, t)
  {
    var later := e.(unSnooze := due);
    assert RootedEntry(e, root) && RootedEntry(later, root);
    hide *;
    DeletedIsGone(es, later, root, t);
    SameKindStays(Save(es, later), e, later, t);
  }

  lemma {:induction false} NudgedNeverStaysDue(env: Env, st: State, e: Snooze, p: Pass, horizon: int)
    requires Inv(env, st) && e in st.entries && e.watchdog && e.unSnooze <= horizon && SetsLate(env, p, horizon)
    ensures var turned := StatusCalls(env, StartNudge(env, st, e, p.now), p.calls,
                                      Source(e.messageId, env.root(e.messageId)), true).entries;
            && !StaysDue(turned, e, horizon)
            && !StaysDue(Delete(turned, e.(fires := e.fires + 1, unSnooze := p.now + env.minutes)), e, horizon)
  {
    assert RootedEntry(e, env.root);
    var nudged := e.(fires := e.fires + 1, unSnooze := p.now + env.minutes);
    var started := StartNudge(env, st, e, p.now);
    var src := Source(e.messageId, env.root(e.messageId));
    DeletedIsGone(st.entries, nudged, env.root, horizon);
    assert started.entries == Save(st.entries, nudged);
    TurnAddsNothingDue(env, started, p.calls, src, true, horizon);
    DeleteMembers(StatusCalls(env, started, p.calls, src, true).entries, nudged);
    SameKindStays(started.entries, e, nudged, horizon);
  }

  /** After a pass an entry of the picked one's kind and thread is left that is due by the horizon, exactly if
      the run broke off or the entry is a recurring task whose next tick is not after the horizon: its
      expression does not parse, or never comes.  It is picked again. */
  lemma {:induction false} StaysDueExactly(env: Env, st: State, e: Snooze, p: Pass, horizon: int)
    requires Inv(env, st) && e in st.entries && e.unSnooze <= horizon && SetsLate(env, p, horizon)
    ensures StaysDue(HandlePass(env, st, e, p).entries, e, horizon)
       <==> !e.watchdog && (p.result == Broke || (!e.once && !TicksLate(p, horizon)))
  {
    if e.watchdog {
      WatchdogNeverStaysDue(env, st, e, p, horizon);
    } else {
      TaskStaysDue(env, st, e, p, horizon);
    }
  }

  /** A schedule that parses but never comes, such as the 30th of February: the entry saved for the zero time
      is due at once, as before. */
  lemma {:induction false} NeverComingStaysDue(env: Env, zero: int, now: int) returns (st: State, e: Snooze, p: Pass)
    requires env.root("m") == "t" && env.minutes > 0 && zero <= now
    ensures Inv(env, st) && e in st.entries && !e.once && e.unSnooze <= now
    ensures p.now == now && p.result == Done && p.tick == Some(zero)
    ensures Oldest(HandlePass(env, st, e, p).entries, now) == Some(e.(unSnooze := zero))
  {
    e := Snooze("t", "m", false, false, "0 0 30 2 *", now, 0);
    st := State([e], map[], map[]);
    p := Pass(now, true, [], Done, Some(zero));
    assert st.entries[0] == e;
    forall f | f in st.entries ensures OnBudget(st, f) {
      assert f == e && !f.watchdog;
    }
    assert forall threadId :: Nudged(st, threadId) == 0;
    var next := e.(unSnooze := zero);
    assert [e][1..] == [];
    SaveMeaning(st.entries, next, env.root);
    assert Others([e], false, "t") == [];
    assert HandlePass(env, st, e, p).entries == [next];
    assert [next][1..] == [];
  }

  lemma {:induction false} PassKeepsInv(env: Env, st: State, e: Snooze, p: Pass)
    requires Inv(env, st) && e in st.entries
    ensures Inv(env, HandlePass(env, st, e, p))
  {
    if e.watchdog {
      StepKeepsInv(env, st, WatchdogFires(e, p.now, p.memoryRead, p.calls));
    } else {
      StepKeepsInv(env, st, ScheduledTurn(e, p.calls, p.result != Broke, p.tick));
    }
  }

  method RunPass(sched: Scheduler, env: Env, e: Snooze, p: Pass)
    requires e.threadId != ""
    modifies sched, sched.store
    ensures sched.View() == HandlePass(env, old(sched.View()), e, p)
  {
    if e.watchdog {
      sched.FireWatchdog(env, e, p.now, p.memoryRead, p.calls);
      return;
    }
    sched.ReplayTurn(env, p.calls, Source(e.messageId, env.root(e.messageId)), false);
    if p.result == Broke {
      return;
    }
    var _ := sched.store.AdvanceOrDeleteSnooze(e, p.tick, None);
  }

  ghost predicate InDueOrder(handled: seq<Snooze>) {
    forall i, j :: 0 <= i < j < |handled| ==> handled[i].unSnooze <= handled[j].unSnooze
  }

  /** Nothing that is left was due before the entries handled so far. */
  ghost predicate NoneBefore(es: seq<Snooze>, handled: seq<Snooze>) {
    forall i, e :: 0 <= i < |handled| && e in es ==> handled[i].unSnooze <= e.unSnooze
  }

  lemma {:induction false} HandledInOrder(before: seq<Snooze>, after: seq<Snooze>, handled: seq<Snooze>, e: Snooze,
                                          now: int, horizon: int)
    requires InDueOrder(handled) && NoneBefore(before, handled)
    requires Oldest(before, now) == Some(e) && now <= horizon && OnlyLater(before, after, horizon)
    ensures InDueOrder(handled + [e]) && NoneBefore(after, handled + [e])
  {
    OldestMeaning(before, now);
    forall i, f | 0 <= i < |handled| + 1 && f in after ensures (handled + [e])[i].unSnooze <= f.unSnooze {
      assert e.unSnooze <= f.unSnooze;
      assert i < |handled| ==> handled[i].unSnooze <= e.unSnooze;
    }
  }

  lemma {:induction false} DueIsCounted(es: seq<Snooze>, e: Snooze, t: int)
    requires e in es && e.unSnooze <= t
    ensures DueBy(es, t) > 0
  {
    if es[0] != e {
      assert es == [es[0]] + es[1..];
      DueIsCounted(es[1..], e, t);
    }
  }

  // ----- When the loop ends -----

  predicate Recurring(e: Snooze) {
    !e.watchdog && !e.once
  }

  ghost predicate RecurringDue(es: seq<Snooze>, t: int) {
    exists e :: e in es && Recurring(e) && e.unSnooze <= t
  }

  lemma {:induction false} SameThreadSameEntry(es: seq<Snooze>, e: Snooze, f: Snooze)
    requires Unique(es) && e in es && f in es && SameThread(f, e.watchdog, e.threadId)
    ensures e == f
  {
    var i :| 0 <= i < |es| && es[i] == e;
    var j :| 0 <= j < |es| && es[j] == f;
    if i < j { UniqueMeans(es, i, j); } else if j < i { UniqueMeans(es, j, i); }
  }

  lemma {:induction false} TaskIsUntouched(es: seq<Snooze>, s: Snooze, f: Snooze)
    requires s.watchdog && f in es && !f.watchdog
    ensures f in Delete(es, s) && f in Save(es, s)
  {
    DeleteMembers(es, s);
  }

  /** A watchdog that fires touches no task. */
  lemma {:induction false} WatchdogKeepsTasks(env: Env, st: State, e: Snooze, p: Pass, f: Snooze)
    requires e.watchdog && f in st.entries && !f.watchdog
    ensures f in RunWatchdog(env, st, e, p.now, p.memoryRead, p.calls).entries
  {
    hide StatusCalls, StartNudge, Save, Delete;
    if !p.memoryRead {
      TaskIsUntouched(st.entries, e.(unSnooze := p.now + env.minutes), f);
    } else if StatusOf(st, e.threadId) != Waiting || e.fires >= MAX_FIRES {
      TaskIsUntouched(st.entries, e, f);
    } else {
      NudgeKeepsTasks(env, st, e, p, f);
    }
  }

  lemma {:induction false} NudgeKeepsTasks(env: Env, st: State, e: Snooze, p: Pass, f: Snooze)
    requires e.watchdog && f in st.entries && !f.watchdog
    ensures var nudged := e.(fires := e.fires + 1, unSnooze := p.now + env.minutes);
            var turned := StatusCalls(env, StartNudge(env, st, e, p.now), p.calls,
                                      Source(e.messageId, env.root(e.messageId)), true).entries;
            f in turned && f in Delete(turned, nudged)
  {
    hide StatusCalls, Save, Delete;
    var nudged := e.(fires := e.fires + 1, unSnooze := p.now + env.minutes);
    var started, src := StartNudge(env, st, e, p.now), Source(e.messageId, env.root(e.messageId));
    TaskIsUntouched(st.entries, nudged, f);
    CallsKeepTasks(env, started, p.calls, src, true, f);
    TaskIsUntouched(StatusCalls(env, started, p.calls, src, true).entries, nudged, f);
  }

  lemma {:induction false} CallsKeepTasks(env: Env, st: State, calls: seq<StatusCall>, src: Source, nudge: bool,
                                          f: Snooze)
    requires f in st.entries && !f.watchdog
    ensures f in StatusCalls(env, st, calls, src, nudge).entries
    decreases |calls|
  {
    if calls != [] {
      var c := calls[0];
      DeleteMembers(st.entries, Snooze(src.threadId, src.messageId, true, true, "", c.now + env.minutes,
                                       ArmedFires(st.entries, src.threadId, nudge)));
      CallsKeepTasks(env, SetTaskStatus(env, st, c, src, nudge), calls[1..], src, nudge, f);
    }
  }

  /** A pass that finds no later tick leaves a recurring entry due, the picked one or another. */
  lemma {:induction false} RecurringStaysDue(env: Env, st: State, e: Snooze, p: Pass, t: int)
    requires Inv(env, st) && e in st.entries && e.unSnooze <= t && RecurringDue(st.entries, t) && !TicksLate(p, t)
    ensures RecurringDue(HandlePass(env, st, e, p).entries, t)
  {
    var f :| f in st.entries && Recurring(f) && f.unSnooze <= t;
    if e.watchdog {
      WatchdogKeepsTasks(env, st, e, p, f);
    } else {
      var src := Source(e.messageId, env.root(e.messageId));
      assert RootedEntry(e, env.root);
      CallsKeepTasks(env, st, p.calls, src, false, e);
      CallsKeepTasks(env, st, p.calls, src, false, f);
      StatusCallsKeepInv(env, st, p.calls, src, false);
      TaskLeavesRecurring(env, StatusCalls(env, st, p.calls, src, false).entries, e, f, p, t);
    }
  }

  lemma {:induction false} TaskLeavesRecurring(env: Env, es: seq<Snooze>, e: Snooze, f: Snooze, p: Pass, t: int)
    requires Unique(es) && Rooted(es, env.root) && e in es && f in es && !e.watchdog && e.unSnooze <= t
    requires Recurring(f) && f.unSnooze <= t && !TicksLate(p, t)
    ensures RecurringDue(es, t) && RecurringDue(Advance(es, e, p.tick), t)
  {
    assert RootedEntry(e, env.root);
    if e.once {
      DeleteMeaning(es, e, env.root);
      OthersMembers(es, false, e.threadId);
      if SameThread(f, false, e.threadId) {
        SameThreadSameEntry(es, e, f);
      }
    } else if p.tick.Some? {
      var next := e.(unSnooze := p.tick.value);
      assert next in Delete(es, next) + [next];
    }
  }

  /** The loop of n passes over a script, oldest entry first; it stands still when nothing is due. */
  ghost function Passes(env: Env, st: State, script: nat -> Pass, n: nat): State
    decreases n
  {
    if n == 0 then st
    else
      var before := Passes(env, st, script, n - 1);
      var p := script(n - 1);
      match Oldest(before.entries, p.now)
      case None => before
      case Some(e) => HandlePass(env, before, e, p)
  }

  /** With a recurring entry due, and none of its next ticks after the clock, the loop is never done: however
      many passes are made, something is due. */
  lemma {:induction false} DrainNeverEnds(env: Env, st: State, script: nat -> Pass, now: int, n: nat)
    requires Inv(env, st) && RecurringDue(st.entries, now)
    requires forall i :: script(i).now == now && !TicksLate(script(i), now)
    ensures Inv(env, Passes(env, st, script, n)) && RecurringDue(Passes(env, st, script, n).entries, now)
    ensures Oldest(Passes(env, st, script, n).entries, now).Some?
    decreases n
  {
    var end := Passes(env, st, script, n);
    if n > 0 {
      DrainNeverEnds(env, st, script, now, n - 1);
      var before, p := Passes(env, st, script, n - 1), script(n - 1);
      var e := Oldest(before.entries, now).value;
      OldestMeaning(before.entries, now);
      PassKeepsInv(env, before, e, p);
      RecurringStaysDue(env, before, e, p, now);
    }
    OldestMeaning(end.entries, now);
  }

  /** Work off expired entries, oldest first, until none is left or a run breaks.  Next ticks count only if a
      recurring entry is due by the horizon; then DrainNeverEnds tells what happens without later ones.
      Termination: every pass leaves fewer entries due by the horizon.  `handled` lists the entries in the
      order they were picked. */
  method DrainExpired(sched: Scheduler, env: Env, script: nat -> Pass, ghost horizon: int)
    returns (broke: bool, passes: nat, ghost handled: seq<Snooze>)
    requires Inv(env, sched.View())
    requires forall i :: SetsLate(env, script(i), horizon)
    requires RecurringDue(sched.store.entries, horizon) ==> forall i :: TicksLate(script(i), horizon)
    modifies sched, sched.store
    ensures Inv(env, sched.View())
    ensures InDueOrder(handled) && |handled| <= DueBy(old(sched.store.entries), horizon)
    ensures !broke ==> forall e :: e in sched.store.entries ==> e.unSnooze > script(passes).now
  {
    passes, handled, broke := 0, [], false;
    while true
      invariant Inv(env, sched.View())
      invariant |handled| + DueBy(sched.store.entries, horizon) <= DueBy(old(sched.store.entries), horizon)
      invariant InDueOrder(handled) && NoneBefore(sched.store.entries, handled)
      invariant RecurringDue(sched.store.entries, horizon) ==> forall i :: TicksLate(script(i), horizon)
      decreases DueBy(sched.store.entries, horizon)
    {
      var p := script(passes);
      assert SetsLate(env, p, horizon);
      var next := sched.store.NextSnoozed(p.now);
      OldestMeaning(sched.store.entries, p.now);
      if next.None? {
        return;
      }
      var e := next.value;
      ghost var st := sched.View();
      assert Recurring(e) ==> TicksLate(p, horizon);
      assert RootedEntry(e, env.root);
      PassKeepsInv(env, st, e, p);
      DueIsCounted(st.entries, e, horizon);
      RunPass(sched, env, e, p);
      if !e.watchdog && p.result == Broke {
        HandledInOrder(st.entries, st.entries, handled, e, p.now, horizon);
        handled := handled + [e];
        return true, passes, handled;
      }
      PassDisposes(env, st, e, p, horizon);
      HandledInOrder(st.entries, sched.store.entries, handled, e, p.now, horizon);
      handled := handled + [e];
      passes := passes + 1;
    }
  }

  /** A pass of the loop is an event of the runs that keep nudges bounded. */
  function EventOf(e: Snooze, p: Pass): Event {
    if e.watchdog then WatchdogFires(e, p.now, p.memoryRead, p.calls)
    else ScheduledTurn(e, p.calls, p.result == Done || p.result == HitMaxTurns, p.tick)
  }

  lemma {:induction false} PassIsEvent(env: Env, st: State, e: Snooze, p: Pass)
    requires e in st.entries
    ensures HandlePass(env, st, e, p) == Step(env, st, EventOf(e, p))
  {
  }
}
