/** The file of timed entries (internal/services/snooze.go).  Reads and writes of the file succeed;
    times are plain integers. */
module SnoozeStore {
  import opened Strings

  /** A scheduled task (recurring, or one-shot when `once`), or a stuck-task watchdog. */
  datatype Snooze = Snooze(
    threadId: string,
    messageId: string,
    watchdog: bool,
    once: bool,
    crontab: string,
    unSnooze: int,
    fires: int)

  // ----- Specification functions -----

  predicate SameMessage(e: Snooze, s: Snooze) {
    e.watchdog == s.watchdog && s.messageId != "" && e.messageId == s.messageId
  }

  predicate SameThread(e: Snooze, watchdog: bool, threadId: string) {
    e.watchdog == watchdog && e.threadId == threadId
  }

  function WithoutMessage(es: seq<Snooze>, s: Snooze): (r: seq<Snooze>)
    ensures |r| <= |es|
  {
    if es == [] then []
    else (if SameMessage(es[0], s) then [] else [es[0]]) + WithoutMessage(es[1..], s)
  }

  /** All entries except those of the given kind on the given thread, in order. */
  function Others(es: seq<Snooze>, watchdog: bool, threadId: string): (r: seq<Snooze>)
    ensures |r| <= |es|
  {
    if es == [] then []
    else (if SameThread(es[0], watchdog, threadId) then [] else [es[0]]) + Others(es[1..], watchdog, threadId)
  }

  /** By message id first; by thread only if that removed nothing. */
  function Delete(es: seq<Snooze>, s: Snooze): seq<Snooze> {
    var filtered := WithoutMessage(es, s);
    if |filtered| == |es| && s.threadId != "" then Others(es, s.watchdog, s.threadId) else filtered
  }

  function Save(es: seq<Snooze>, s: Snooze): seq<Snooze> {
    Delete(es, s) + [s]
  }

  function Find(es: seq<Snooze>, watchdog: bool, threadId: string): Option<Snooze> {
    if es == [] then None
    else if SameThread(es[0], watchdog, threadId) then Some(es[0])
    else Find(es[1..], watchdog, threadId)
  }

  /** The entry a nudge turn keeps counting on; everything else restarts at zero. */
  function ArmedFires(es: seq<Snooze>, threadId: string, nudge: bool): int {
    if nudge && Find(es, true, threadId).Some? then Find(es, true, threadId).value.fires else 0
  }

  predicate CanArm(messageId: string, threadId: string, minutes: int) {
    minutes > 0 && !IsBlank(messageId) && !IsBlank(threadId)
  }

  function Arm(es: seq<Snooze>, messageId: string, threadId: string, minutes: int, nudge: bool, now: int): seq<Snooze> {
    if !CanArm(messageId, threadId, minutes) then es
    else Save(es, Snooze(threadId, messageId, true, true, "", now + minutes, ArmedFires(es, threadId, nudge)))
  }

  /** A recurring schedule survives an abort. */
  predicate SurvivesAbort(e: Snooze, threadId: string) {
    e.threadId != threadId || (!e.watchdog && !e.once)
  }

  function Abort(es: seq<Snooze>, threadId: string): (r: seq<Snooze>)
    ensures |r| <= |es|
  {
    if es == [] then []
    else (if SurvivesAbort(es[0], threadId) then [es[0]] else []) + Abort(es[1..], threadId)
  }

  /** The earliest entry due by `now`, the first of equals. */
  function Oldest(es: seq<Snooze>, now: int): Option<Snooze> {
    if es == [] then None
    else
      var rest := Oldest(es[1..], now);
      if es[0].unSnooze > now then rest
      else if rest.Some? && rest.value.unSnooze < es[0].unSnooze then rest
      else Some(es[0])
  }

  /** `tick` is the next cron time, None when the expression does not parse. */
  function Advance(es: seq<Snooze>, s: Snooze, tick: Option<int>): seq<Snooze> {
    if s.once then Delete(es, s)
    else match tick
      case None => es
      case Some(t) => Save(es, s.(unSnooze := t))
  }

  // ----- The store -----

  lemma {:induction false} WithoutMessageStep(es: seq<Snooze>, i: nat, s: Snooze)
    requires i < |es|
    ensures var rest := WithoutMessage(es[i + 1..], s);
            WithoutMessage(es[i..], s)
            == if es[i].watchdog == s.watchdog && s.messageId != "" && es[i].messageId == s.messageId then rest
               else [es[i]] + rest
  {
    assert es[i..][1..] == es[i + 1..];
    assert [] + WithoutMessage(es[i + 1..], s) == WithoutMessage(es[i + 1..], s);
  }

  lemma {:induction false} OthersStep(es: seq<Snooze>, i: nat, watchdog: bool, threadId: string)
    requires i < |es|
    ensures var rest := Others(es[i + 1..], watchdog, threadId);
            Others(es[i..], watchdog, threadId)
            == if es[i].watchdog == watchdog && es[i].threadId == threadId then rest else [es[i]] + rest
  {
    assert es[i..][1..] == es[i + 1..];
    assert [] + Others(es[i + 1..], watchdog, threadId) == Others(es[i + 1..], watchdog, threadId);
  }

  lemma {:induction false} AbortStep(es: seq<Snooze>, i: nat, threadId: string)
    requires i < |es|
    ensures var rest := Abort(es[i + 1..], threadId);
            Abort(es[i..], threadId)
            == if es[i].threadId != threadId || (!es[i].watchdog && !es[i].once) then [es[i]] + rest else rest
  {
    assert es[i..][1..] == es[i + 1..];
    assert [] + Abort(es[i + 1..], threadId) == Abort(es[i + 1..], threadId);
  }

  method FilterByMessage(entries: seq<Snooze>, s: Snooze) returns (filtered: seq<Snooze>)
    ensures filtered == WithoutMessage(entries, s)
  {
    filtered := [];
    for i := 0 to |entries|
      invariant WithoutMessage(entries, s) == filtered + WithoutMessage(entries[i..], s)
    {
      WithoutMessageStep(entries, i, s);
      AppendOne(filtered, entries[i], WithoutMessage(entries[i + 1..], s));
      if entries[i].watchdog == s.watchdog && s.messageId != "" && entries[i].messageId == s.messageId {
        continue;
      }
      filtered := filtered + [entries[i]];
    }
    assert filtered + [] == filtered;
  }

  method FilterByThread(entries: seq<Snooze>, watchdog: bool, threadId: string) returns (filtered: seq<Snooze>)
    ensures filtered == Others(entries, watchdog, threadId)
  {
    filtered := [];
    for i := 0 to |entries|
      invariant Others(entries, watchdog, threadId) == filtered + Others(entries[i..], watchdog, threadId)
    {
      OthersStep(entries, i, watchdog, threadId);
      AppendOne(filtered, entries[i], Others(entries[i + 1..], watchdog, threadId));
      if entries[i].watchdog == watchdog && entries[i].threadId == threadId {
        continue;
      }
      filtered := filtered + [entries[i]];
    }
    assert filtered + [] == filtered;
  }

  class Store {
    var entries: seq<Snooze>

    constructor ()
      ensures entries == []
    {
      entries := [];
    }

    method FindByThread(threadId: string, watchdog: bool) returns (found: Option<Snooze>)
      ensures found == Find(entries, watchdog, threadId)
    {
      for i := 0 to |entries|
        invariant Find(entries[i..], watchdog, threadId) == Find(entries, watchdog, threadId)
      {
        assert entries[i..][1..] == entries[i + 1..];
        if SameThread(entries[i], watchdog, threadId) {
          return Some(entries[i]);
        }
      }
      return None;
    }

    method DeleteSnooze(s: Snooze)
      modifies this
      ensures entries == Delete(old(entries), s)
    {
      var filtered := FilterByMessage(entries, s);
      if |filtered| == |entries| && s.threadId != "" {
        filtered := FilterByThread(entries, s.watchdog, s.threadId);
      }
      if |filtered| == |entries| {
        NothingRemoved(entries, s);
        return;
      }
      entries := filtered;
    }

    /** `root` is what looking up the entry's message finds, None when the lookup fails. */
    method SaveSnooze(s: Snooze, root: Option<string>) returns (ok: bool)
      modifies this
      ensures ok <==> s.threadId != "" || root.Some?
      ensures entries ==
              if !ok then old(entries)
              else Save(old(entries), if s.threadId == "" then s.(threadId := root.value) else s)
    {
      var saved := s;
      if saved.threadId == "" {
        if root.None? {
          return false;
        }
        saved := saved.(threadId := root.value);
      }
      DeleteSnooze(saved);
      entries := entries + [saved];
      return true;
    }

    method ArmWaitingWatchdog(messageId: string, threadId: string, minutes: int, nudge: bool, now: int)
      modifies this
      ensures entries == Arm(old(entries), messageId, threadId, minutes, nudge, now)
    {
      if minutes <= 0 || IsBlank(messageId) || IsBlank(threadId) {
        return;
      }
      var fires := 0;
      if nudge {
        var existing := FindByThread(threadId, true);
        if existing.Some? {
          fires := existing.value.fires;
        }
      }
      var _ := SaveSnooze(Snooze(threadId, messageId, true, true, "", now + minutes, fires), None);
    }

    method AbortThreadSnoozes(threadId: string) returns (removed: nat)
      modifies this
      ensures entries == Abort(old(entries), threadId)
      ensures removed == |old(entries)| - |entries|
    {
      var filtered: seq<Snooze> := [];
      for i := 0 to |entries|
        invariant entries == old(entries)
        invariant Abort(entries, threadId) == filtered + Abort(entries[i..], threadId)
      {
        AbortStep(entries, i, threadId);
        AppendOne(filtered, entries[i], Abort(entries[i + 1..], threadId));
        if entries[i].threadId != threadId || (!entries[i].watchdog && !entries[i].once) {
          filtered := filtered + [entries[i]];
        }
      }
      assert filtered + [] == filtered;
      removed := |entries| - |filtered|;
      if removed == 0 {
        NothingAborted(entries, threadId);
        return;
      }
      entries := filtered;
    }

    method NextSnoozed(now: int) returns (next: Option<Snooze>)
      ensures next == Oldest(entries, now)
    {
      next := None;
      for i := 0 to |entries|
        invariant OldestOf(next, Oldest(entries[i..], now)) == Oldest(entries, now)
        invariant next.Some? ==> next.value.unSnooze <= now
      {
        assert entries[i..][1..] == entries[i + 1..];
        var entry := entries[i];
        if entry.unSnooze > now {
          continue;
        }
        if next.None? || entry.unSnooze < next.value.unSnooze {
          next := Some(entry);
        }
      }
    }

    /** `root` as for SaveSnooze: only a recurring entry without a thread is looked up. */
    method AdvanceOrDeleteSnooze(s: Snooze, tick: Option<int>, root: Option<string>) returns (ok: bool)
      modifies this
      ensures ok <==> s.once || (tick.Some? && (s.threadId != "" || root.Some?))
      ensures entries ==
              if !ok then old(entries)
              else Advance(old(entries), if s.threadId == "" && !s.once then s.(threadId := root.value) else s, tick)
    {
      if s.once {
        DeleteSnooze(s);
        return true;
      }
      if tick.None? {
        return false;
      }
      ok := SaveSnooze(s.(unSnooze := tick.value), root);
    }
  }

  /** The running minimum of the scan; an earlier entry wins ties. */
  function OldestOf(a: Option<Snooze>, b: Option<Snooze>): Option<Snooze> {
    if a.None? then b
    else if b.Some? && b.value.unSnooze < a.value.unSnooze then b
    else a
  }

  lemma {:induction false} OthersKeepsAll(es: seq<Snooze>, watchdog: bool, threadId: string)
    requires |Others(es, watchdog, threadId)| == |es|
    ensures Others(es, watchdog, threadId) == es
  {
    hide SameThread;
    if es != [] {
      OthersKeepsAll(es[1..], watchdog, threadId);
    }
  }

  lemma {:induction false} WithoutKeepsAll(es: seq<Snooze>, s: Snooze)
    requires |WithoutMessage(es, s)| == |es|
    ensures WithoutMessage(es, s) == es
  {
    if es != [] {
      WithoutKeepsAll(es[1..], s);
    }
  }

  lemma {:induction false} NothingRemoved(es: seq<Snooze>, s: Snooze)
    requires |Delete(es, s)| == |es|
    ensures Delete(es, s) == es
  {
    if |WithoutMessage(es, s)| == |es| && s.threadId != "" {
      OthersKeepsAll(es, s.watchdog, s.threadId);
    } else {
      WithoutKeepsAll(es, s);
    }
  }

  lemma {:induction false} NothingAborted(es: seq<Snooze>, threadId: string)
    requires |Abort(es, threadId)| == |es|
    ensures Abort(es, threadId) == es
  {
    if es != [] {
      NothingAborted(es[1..], threadId);
    }
  }

  // ----- At most one entry per kind and thread -----

  function Count(es: seq<Snooze>, watchdog: bool, threadId: string): nat {
    if es == [] then 0
    else (if SameThread(es[0], watchdog, threadId) then 1 else 0) + Count(es[1..], watchdog, threadId)
  }

  ghost predicate Unique(es: seq<Snooze>) {
    forall watchdog, threadId :: Count(es, watchdog, threadId) <= 1
  }

  lemma {:induction false} CountAppend(a: seq<Snooze>, b: seq<Snooze>, watchdog: bool, threadId: string)
    ensures Count(a + b, watchdog, threadId) == Count(a, watchdog, threadId) + Count(b, watchdog, threadId)
  {
    if a == [] {
      assert a + b == b;
    } else {
      assert (a + b)[1..] == a[1..] + b;
      CountAppend(a[1..], b, watchdog, threadId);
    }
  }

  lemma {:induction false} CountOne(s: Snooze, watchdog: bool, threadId: string)
    ensures Count([s], watchdog, threadId) == if SameThread(s, watchdog, threadId) then 1 else 0
  {
    assert [s][1..] == [];
  }

  lemma {:induction false} CountZero(es: seq<Snooze>, watchdog: bool, threadId: string)
    ensures Count(es, watchdog, threadId) == 0 <==> forall e :: e in es ==> !SameThread(e, watchdog, threadId)
  {
    if es != [] {
      CountZero(es[1..], watchdog, threadId);
      assert es == [es[0]] + es[1..];
    }
  }

  lemma {:induction false} WithoutMembers(es: seq<Snooze>, s: Snooze)
    ensures forall e :: e in WithoutMessage(es, s) <==> e in es && !SameMessage(e, s)
    ensures |WithoutMessage(es, s)| == |es| <==> forall e :: e in es ==> !SameMessage(e, s)
    ensures forall watchdog, threadId ::
              Count(WithoutMessage(es, s), watchdog, threadId) <= Count(es, watchdog, threadId)
  {
    if es != [] {
      WithoutMembers(es[1..], s);
      assert es == [es[0]] + es[1..];
      var rest := WithoutMessage(es[1..], s);
      forall watchdog, threadId
        ensures Count(WithoutMessage(es, s), watchdog, threadId) <= Count(es, watchdog, threadId)
      {
        if !SameMessage(es[0], s) {
          assert WithoutMessage(es, s)[1..] == rest;
        } else {
          assert WithoutMessage(es, s) == rest;
        }
      }
    }
  }

  lemma {:induction false} OthersMembers(es: seq<Snooze>, kind: bool, thread: string)
    ensures forall e :: e in Others(es, kind, thread) <==> e in es && !SameThread(e, kind, thread)
    ensures forall watchdog, threadId ::
              Count(Others(es, kind, thread), watchdog, threadId) <= Count(es, watchdog, threadId)
  {
    if es != [] {
      OthersMembers(es[1..], kind, thread);
      assert es == [es[0]] + es[1..];
      var rest := Others(es[1..], kind, thread);
      forall watchdog, threadId
        ensures Count(Others(es, kind, thread), watchdog, threadId) <= Count(es, watchdog, threadId)
      {
        if !SameThread(es[0], kind, thread) {
          assert Others(es, kind, thread)[1..] == rest;
        } else {
          assert Others(es, kind, thread) == rest;
        }
      }
    }
  }

  lemma {:induction false} DeleteMembers(es: seq<Snooze>, s: Snooze)
    ensures forall e :: e in Delete(es, s) ==> e in es
    ensures forall e :: e in es && e.watchdog != s.watchdog ==> e in Delete(es, s)
    ensures forall watchdog, threadId :: Count(Delete(es, s), watchdog, threadId) <= Count(es, watchdog, threadId)
  {
    WithoutMembers(es, s);
    OthersMembers(es, s.watchdog, s.threadId);
  }

  /** Saving takes over an entry of another thread by message id while the entry's own thread already
      has one under another message id. */
  ghost predicate Hijacks(es: seq<Snooze>, s: Snooze) {
    && (exists e :: e in es && SameMessage(e, s))
    && (exists e :: e in es && SameThread(e, s.watchdog, s.threadId) && !SameMessage(e, s))
  }

  /** Saving keeps entries unique exactly when it does not hijack. */
  lemma {:induction false} SaveKeepsUnique(es: seq<Snooze>, s: Snooze)
    requires Unique(es) && s.threadId != ""
    ensures Unique(Save(es, s)) <==> !Hijacks(es, s)
  {
    DeleteMembers(es, s);
    var rest := Delete(es, s);
    CountZero(rest, s.watchdog, s.threadId);
    WithoutMembers(es, s);
    OthersMembers(es, s.watchdog, s.threadId);
    forall watchdog, threadId
      ensures Count(Save(es, s), watchdog, threadId) ==
              Count(rest, watchdog, threadId) + (if SameThread(s, watchdog, threadId) then 1 else 0)
    {
      CountAppend(rest, [s], watchdog, threadId);
      CountOne(s, watchdog, threadId);
    }
    assert Hijacks(es, s) <==> exists e :: e in rest && SameThread(e, s.watchdog, s.threadId);
    if Hijacks(es, s) {
      assert Count(Save(es, s), s.watchdog, s.threadId) > 1;
    } else {
      assert Count(rest, s.watchdog, s.threadId) == 0;
      assert forall watchdog, threadId :: Count(Save(es, s), watchdog, threadId) <= 1 by {
        assert forall watchdog, threadId :: Count(rest, watchdog, threadId) <= Count(es, watchdog, threadId) <= 1;
      }
    }
  }

  /** Two tasks on two threads; the second thread saves under the first one's message id. */
  lemma {:induction false} UniquenessIsNotInductive() returns (es: seq<Snooze>, s: Snooze)
    ensures Unique(es) && s.threadId != "" && !Unique(Save(es, s))
  {
    var a := Snooze("t1", "m1", false, false, "", 0, 0);
    var b := Snooze("t2", "m2", false, false, "", 0, 0);
    es := [a, b];
    s := Snooze("t2", "m1", false, false, "", 0, 0);
    assert "t1" != "t2" by { assert "t1"[1] != "t2"[1]; }
    assert "m1" != "m2" by { assert "m1"[1] != "m2"[1]; }
    assert es[1..] == [b];
    forall watchdog, threadId ensures Count(es, watchdog, threadId) <= 1 {
      CountOne(b, watchdog, threadId);
    }
    assert a in es && b in es;
    SaveKeepsUnique(es, s);
  }

  /** An entry's thread is a fixed function of its message id, as the thread root of a mail is. */
  predicate RootedEntry(e: Snooze, root: string -> string) {
    e.threadId != "" && (e.messageId != "" ==> e.threadId == root(e.messageId))
  }

  ghost predicate Rooted(es: seq<Snooze>, root: string -> string) {
    forall e :: e in es ==> RootedEntry(e, root)
  }

  lemma {:induction false} UniqueMeans(es: seq<Snooze>, i: nat, j: nat)
    requires Unique(es) && i < j < |es|
    ensures !SameThread(es[j], es[i].watchdog, es[i].threadId)
  {
    var a, b := es[..j], es[j..];
    var watchdog, threadId := es[i].watchdog, es[i].threadId;
    CountAppend(a, b, watchdog, threadId);
    assert es == a + b;
    CountZero(a, watchdog, threadId);
    assert a[i] in a;
    CountZero(b, watchdog, threadId);
    assert b[0] in b && b[0] == es[j];
  }

  /** With rooted entries, deleting removes exactly the thread's entry of the same kind and leaves
      everything else unchanged and in order, whichever of its two searches finds it. */
  lemma {:induction false} DeleteMeaning(es: seq<Snooze>, s: Snooze, root: string -> string)
    requires Unique(es) && Rooted(es, root) && RootedEntry(s, root)
    ensures Delete(es, s) == Others(es, s.watchdog, s.threadId)
  {
    WithoutMembers(es, s);
    if |WithoutMessage(es, s)| != |es| {
      var e :| e in es && SameMessage(e, s);
      var k :| 0 <= k < |es| && es[k] == e;
      forall i | 0 <= i < |es|
        ensures SameMessage(es[i], s) <==> SameThread(es[i], s.watchdog, s.threadId)
      {
        assert es[i] in es;
        if i < k { UniqueMeans(es, i, k); } else if k < i { UniqueMeans(es, k, i); }
      }
      SameFilter(es, s);
    }
  }

  lemma {:induction false} SameFilter(es: seq<Snooze>, s: Snooze)
    requires forall i :: 0 <= i < |es| ==> (SameMessage(es[i], s) <==> SameThread(es[i], s.watchdog, s.threadId))
    ensures WithoutMessage(es, s) == Others(es, s.watchdog, s.threadId)
  {
    if es != [] {
      assert SameMessage(es[0], s) <==> SameThread(es[0], s.watchdog, s.threadId);
      SameFilter(es[1..], s);
    }
  }

  /** Saving replaces the thread's entry of that kind, at the end, and touches no other entry. */
  lemma {:induction false} SaveMeaning(es: seq<Snooze>, s: Snooze, root: string -> string)
    requires Unique(es) && Rooted(es, root) && RootedEntry(s, root)
    ensures Save(es, s) == Others(es, s.watchdog, s.threadId) + [s]
    ensures Unique(Save(es, s)) && Rooted(Save(es, s), root)
  {
    DeleteMeaning(es, s, root);
    OthersMembers(es, s.watchdog, s.threadId);
    forall watchdog, threadId ensures Count(Save(es, s), watchdog, threadId) <= 1 {
      var rest := Others(es, s.watchdog, s.threadId);
      CountAppend(rest, [s], watchdog, threadId);
      CountOne(s, watchdog, threadId);
      CountZero(rest, s.watchdog, s.threadId);
    }
  }

  /** Aborting removes exactly the thread's watchdog and one-shot entries. */
  lemma {:induction false} AbortMembers(es: seq<Snooze>, thread: string)
    ensures forall e :: e in Abort(es, thread) <==>
              e in es && (e.threadId != thread || (!e.watchdog && !e.once))
    ensures forall watchdog, threadId :: Count(Abort(es, thread), watchdog, threadId) <= Count(es, watchdog, threadId)
  {
    if es != [] {
      AbortMembers(es[1..], thread);
      assert es == [es[0]] + es[1..];
      var rest := Abort(es[1..], thread);
      forall watchdog, threadId
        ensures Count(Abort(es, thread), watchdog, threadId) <= Count(es, watchdog, threadId)
      {
        if SurvivesAbort(es[0], thread) {
          assert Abort(es, thread)[1..] == rest;
        } else {
          assert Abort(es, thread) == rest;
        }
      }
    }
  }

  // ----- Order -----

  /** `out` lists the entries at the positions `kept`, in the order of the store. */
  ghost predicate Picks(es: seq<Snooze>, kept: seq<nat>, out: seq<Snooze>) {
    && |kept| == |out|
    && (forall k :: 0 <= k < |kept| ==> kept[k] < |es| && es[kept[k]] == out[k])
    && (forall k, l :: 0 <= k < l < |kept| ==> kept[k] < kept[l])
  }

  function Shifted(kept: seq<nat>): seq<nat> {
    seq(|kept|, k requires 0 <= k < |kept| => kept[k] + 1)
  }

  lemma {:induction false} ShiftedMembers(kept: seq<nat>, i: nat)
    ensures i in Shifted(kept) <==> i > 0 && i - 1 in kept
  {
    var shifted := Shifted(kept);
    if i in shifted {
      var k :| 0 <= k < |shifted| && shifted[k] == i;
      assert kept[k] == i - 1;
    }
    if i > 0 && i - 1 in kept {
      var k :| 0 <= k < |kept| && kept[k] == i - 1;
      assert shifted[k] == i;
    }
  }

  lemma {:induction false} PicksShifted(es: seq<Snooze>, rest: seq<nat>, out: seq<Snooze>)
    requires es != [] && Picks(es[1..], rest, out)
    ensures Picks(es, Shifted(rest), out)
  {
    var kept := Shifted(rest);
    forall k | 0 <= k < |kept| ensures kept[k] < |es| && es[kept[k]] == out[k] {
      assert rest[k] < |es[1..]| && es[1..][rest[k]] == out[k];
    }
    forall k, l | 0 <= k < l < |kept| ensures kept[k] < kept[l] {
      assert rest[k] < rest[l];
    }
  }

  lemma {:induction false} PicksFirst(es: seq<Snooze>, rest: seq<nat>, out: seq<Snooze>)
    requires es != [] && Picks(es[1..], rest, out)
    ensures Picks(es, [0] + Shifted(rest), [es[0]] + out)
  {
    PicksShifted(es, rest, out);
    var shifted := Shifted(rest);
    var kept, all := [0] + shifted, [es[0]] + out;
    forall k | 0 <= k < |kept| ensures kept[k] < |es| && es[kept[k]] == all[k] {
      assert k > 0 ==> kept[k] == shifted[k - 1] && all[k] == out[k - 1];
    }
    forall k, l | 0 <= k < l < |kept| ensures kept[k] < kept[l] {
      assert kept[l] == shifted[l - 1];
      assert k > 0 ==> kept[k] == shifted[k - 1] && shifted[k - 1] < shifted[l - 1];
    }
  }

  /** An abort keeps exactly the surviving positions, in order. */
  lemma {:induction false} AbortKeepsOrder(es: seq<Snooze>, thread: string) returns (kept: seq<nat>)
    ensures Picks(es, kept, Abort(es, thread))
    ensures forall i :: 0 <= i < |es| ==>
              (i in kept <==> es[i].threadId != thread || (!es[i].watchdog && !es[i].once))
  {
    if es == [] {
      return [];
    }
    var rest := AbortKeepsOrder(es[1..], thread);
    var out := Abort(es[1..], thread);
    PicksShifted(es, rest, out);
    PicksFirst(es, rest, out);
    assert [] + out == out;
    kept := if SurvivesAbort(es[0], thread) then [0] + Shifted(rest) else Shifted(rest);
    forall i | 0 < i < |es| ensures i in kept <==> SurvivesAbort(es[i], thread) {
      ShiftedMembers(rest, i);
      assert es[i] == es[1..][i - 1];
    }
    ShiftedMembers(rest, 0);
  }

  /** So does removing a thread's entries of one kind. */
  lemma {:induction false} OthersKeepsOrder(es: seq<Snooze>, watchdog: bool, threadId: string) returns (kept: seq<nat>)
    ensures Picks(es, kept, Others(es, watchdog, threadId))
    ensures forall i :: 0 <= i < |es| ==>
              (i in kept <==> es[i].watchdog != watchdog || es[i].threadId != threadId)
  {
    if es == [] {
      return [];
    }
    var rest := OthersKeepsOrder(es[1..], watchdog, threadId);
    var out := Others(es[1..], watchdog, threadId);
    PicksShifted(es, rest, out);
    PicksFirst(es, rest, out);
    assert [] + out == out;
    kept := if SameThread(es[0], watchdog, threadId) then Shifted(rest) else [0] + Shifted(rest);
    forall i | 0 < i < |es| ensures i in kept <==> !SameThread(es[i], watchdog, threadId) {
      ShiftedMembers(rest, i);
      assert es[i] == es[1..][i - 1];
    }
    ShiftedMembers(rest, 0);
  }

  lemma {:induction false} WithoutKeepsOrder(es: seq<Snooze>, s: Snooze) returns (kept: seq<nat>)
    ensures Picks(es, kept, WithoutMessage(es, s))
    ensures forall i :: 0 <= i < |es| ==>
              (i in kept <==> es[i].watchdog != s.watchdog || s.messageId == "" || es[i].messageId != s.messageId)
  {
    if es == [] {
      return [];
    }
    var rest := WithoutKeepsOrder(es[1..], s);
    var out := WithoutMessage(es[1..], s);
    PicksShifted(es, rest, out);
    PicksFirst(es, rest, out);
    assert [] + out == out;
    kept := if SameMessage(es[0], s) then Shifted(rest) else [0] + Shifted(rest);
    forall i | 0 < i < |es|
      ensures i in kept <==> es[i].watchdog != s.watchdog || s.messageId == "" || es[i].messageId != s.messageId
    {
      ShiftedMembers(rest, i);
      assert es[i] == es[1..][i - 1];
    }
    ShiftedMembers(rest, 0);
  }

  /** Some entry of the kind has the message id. */
  predicate HasMessage(es: seq<Snooze>, s: Snooze) {
    s.messageId != "" && exists e :: e in es && e.watchdog == s.watchdog && e.messageId == s.messageId
  }

  /** A delete removes, of the entry's kind only, those with its message id; if there are none, those of its
      thread.  What is left keeps its order. */
  lemma {:induction false} DeleteExactly(es: seq<Snooze>, s: Snooze) returns (kept: seq<nat>)
    ensures Picks(es, kept, Delete(es, s))
    ensures forall i :: 0 <= i < |es| ==>
              (i in kept <==>
               !(es[i].watchdog == s.watchdog
                 && if HasMessage(es, s) then es[i].messageId == s.messageId
                    else s.threadId != "" && es[i].threadId == s.threadId))
  {
    WithoutMembers(es, s);
    if |WithoutMessage(es, s)| == |es| && s.threadId != "" {
      kept := OthersKeepsOrder(es, s.watchdog, s.threadId);
      assert !HasMessage(es, s);
    } else {
      kept := WithoutKeepsOrder(es, s);
      forall i | 0 <= i < |es| ensures es[i] in es {
      }
    }
  }

  /** The entry found is the first one of the kind on the thread. */
  lemma {:induction false} FindIsFirst(es: seq<Snooze>, watchdog: bool, threadId: string)
    ensures Find(es, watchdog, threadId).None? <==>
              forall i :: 0 <= i < |es| ==> !(es[i].watchdog == watchdog && es[i].threadId == threadId)
    ensures Find(es, watchdog, threadId).Some? ==>
              exists i :: 0 <= i < |es| && es[i] == Find(es, watchdog, threadId).value
                          && es[i].watchdog == watchdog && es[i].threadId == threadId
                          && forall j :: 0 <= j < i ==> !(es[j].watchdog == watchdog && es[j].threadId == threadId)
  {
    if es != [] {
      FindIsFirst(es[1..], watchdog, threadId);
      if SameThread(es[0], watchdog, threadId) {
        assert es[0] == Find(es, watchdog, threadId).value;
      } else {
        assert forall i :: 0 < i < |es| ==> es[i] == es[1..][i - 1];
        if Find(es, watchdog, threadId).Some? {
          var i :| 0 <= i < |es[1..]| && es[1..][i] == Find(es[1..], watchdog, threadId).value
                   && es[1..][i].watchdog == watchdog && es[1..][i].threadId == threadId
                   && forall j :: 0 <= j < i ==>
                        !(es[1..][j].watchdog == watchdog && es[1..][j].threadId == threadId);
          assert es[i + 1] == es[1..][i];
        }
      }
    }
  }

  /** Of the entries due, the next one is the first of those with the least time. */
  lemma {:induction false} OldestIsFirst(es: seq<Snooze>, now: int) returns (i: nat)
    ensures Oldest(es, now).None? <==> forall j :: 0 <= j < |es| ==> es[j].unSnooze > now
    ensures Oldest(es, now).Some? ==> IsNext(es, now, i) && es[i] == Oldest(es, now).value
  {
    i := 0;
    if es != [] {
      var k := OldestIsFirst(es[1..], now);
      var rest := Oldest(es[1..], now);
      assert forall j :: 0 < j < |es| ==> es[j] == es[1..][j - 1];
      hide Oldest;
      OldestStep(es, now);
      if es[0].unSnooze > now || (rest.Some? && rest.value.unSnooze < es[0].unSnooze) {
        i := k + 1;
      }
    }
  }

  lemma {:induction false} OldestStep(es: seq<Snooze>, now: int)
    requires es != []
    ensures var rest := Oldest(es[1..], now);
            Oldest(es, now) == if es[0].unSnooze > now || (rest.Some? && rest.value.unSnooze < es[0].unSnooze) then rest
                               else Some(es[0])
  {
  }

  predicate IsNext(es: seq<Snooze>, now: int, i: nat) {
    && i < |es| && es[i].unSnooze <= now
    && (forall j :: 0 <= j < |es| ==> es[i].unSnooze <= es[j].unSnooze || es[j].unSnooze > now)
    && (forall j :: 0 <= j < i ==> es[i].unSnooze < es[j].unSnooze || es[j].unSnooze > now)
  }

  // ----- Any sequence of operations -----

  datatype Operation =
    | SaveOp(s: Snooze)
    | ArmOp(messageId: string, threadId: string, minutes: int, nudge: bool, now: int)
    | DeleteOp(s: Snooze)
    | AbortOp(threadId: string)
    | AdvanceOp(s: Snooze, tick: Option<int>)

  function Apply(es: seq<Snooze>, op: Operation): seq<Snooze> {
    match op
    case SaveOp(s) => Save(es, s)
    case ArmOp(messageId, threadId, minutes, nudge, now) => Arm(es, messageId, threadId, minutes, nudge, now)
    case DeleteOp(s) => Delete(es, s)
    case AbortOp(threadId) => Abort(es, threadId)
    case AdvanceOp(s, tick) => Advance(es, s, tick)
  }

  function ApplyAll(es: seq<Snooze>, ops: seq<Operation>): seq<Snooze>
    decreases |ops|
  {
    if ops == [] then es else ApplyAll(Apply(es, ops[0]), ops[1..])
  }

  /** The entries the code saves carry the thread root of their message; what is deleted is free. */
  predicate RootedOp(op: Operation, root: string -> string) {
    match op
    case SaveOp(s) => RootedEntry(s, root)
    case ArmOp(messageId, threadId, _, _, _) => !IsBlank(messageId) ==> threadId == root(messageId)
    case AdvanceOp(s, _) => RootedEntry(s, root)
    case _ => true
  }

  lemma {:induction false} ApplyKeepsUnique(es: seq<Snooze>, op: Operation, root: string -> string)
    requires Unique(es) && Rooted(es, root) && RootedOp(op, root)
    ensures Unique(Apply(es, op)) && Rooted(Apply(es, op), root)
  {
    match op
    case SaveOp(s) => SaveMeaning(es, s, root);
    case ArmOp(messageId, threadId, minutes, nudge, now) =>
      if CanArm(messageId, threadId, minutes) {
        var s := Snooze(threadId, messageId, true, true, "", now + minutes, ArmedFires(es, threadId, nudge));
        SaveMeaning(es, s, root);
      }
    case DeleteOp(s) => DeleteMembers(es, s);
    case AbortOp(threadId) => AbortMembers(es, threadId);
    case AdvanceOp(s, tick) =>
      if s.once {
        DeleteMembers(es, s);
      } else if tick.Some? {
        SaveMeaning(es, s.(unSnooze := tick.value), root);
      }
  }

  /** After any sequence of saves, arms, deletes, aborts and advances the store holds at most one entry
      per kind and thread. */
  lemma {:induction false} StoreStaysUnique(es: seq<Snooze>, ops: seq<Operation>, root: string -> string)
    requires Unique(es) && Rooted(es, root)
    requires forall i :: 0 <= i < |ops| ==> RootedOp(ops[i], root)
    ensures Unique(ApplyAll(es, ops)) && Rooted(ApplyAll(es, ops), root)
    decreases |ops|
  {
    if ops != [] {
      ApplyKeepsUnique(es, ops[0], root);
      StoreStaysUnique(Apply(es, ops[0]), ops[1..], root);
    }
  }
}
