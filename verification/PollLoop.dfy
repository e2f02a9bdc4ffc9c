/** The poll loop over new mail (cmd/kikubot/main.go, processNewEmails).  Marking a mail as seen is
    effective, and a bounce that goes out marks its mail as seen. */
module PollLoop {
  import opened Strings

  /** How the agent's run over a mail ends.  `noticeNeeded`: nothing this run set makes the failure
      notice superfluous. */
  datatype RunEnd = Success | OutOfTurns(noticeNeeded: bool) | Failed

  /** One delivery of a mail in one poll.  `prepared`: thread root, memory and the first save worked;
      `bounceSent`: a bounce, if one is due, goes out. */
  datatype Mail = Mail(
    id: string,
    autoSubmitted: string,
    allowed: bool,
    prepared: bool,
    end: RunEnd,
    bounceSent: bool)

  /** `handled` counts how often each id was passed to the agent. */
  datatype State = State(retry: map<string, nat>, seen: set<string>, handled: multiset<string>)

  /** Auto-Submitted values other than "no" mark machine-generated mail (section 5 of RFC 3834). */
  predicate IsAutoReply(v: string) {
    var w := Trim(ToLower(v));
    w != "" && w != "no"
  }

  function Attempts(st: State, id: string): nat {
    if id in st.retry then st.retry[id] else 0
  }

  /** Ids to be marked as seen now, and at the end of the poll. */
  datatype Outcome = Outcome(st: State, processed: seq<string>)

  function Handle(cap: int, demo: bool, m: Mail, o: Outcome): Outcome {
    var st := o.st;
    var marked := st.(seen := st.seen + {m.id});
    if IsAutoReply(m.autoSubmitted) then o.(st := marked)
    else if !m.allowed then (if m.bounceSent then o.(st := marked) else o)
    else if demo then o.(st := marked)
    else if !m.prepared then o
    else
      var ran := st.(handled := st.handled + multiset{m.id});
      var cleared := ran.(retry := ran.retry - {m.id});
      match m.end
      case Success => Outcome(cleared, o.processed + [m.id])
      case OutOfTurns(noticeNeeded) =>
        if noticeNeeded && m.bounceSent then o.(st := cleared.(seen := cleared.seen + {m.id}))
        else Outcome(cleared, o.processed + [m.id])
      case Failed =>
        var attempt := Attempts(st, m.id) + 1;
        if attempt < cap then o.(st := ran.(retry := ran.retry[m.id := attempt]))
        else if m.bounceSent then o.(st := cleared.(seen := cleared.seen + {m.id}))
        else Outcome(cleared, o.processed + [m.id])
  }

  function HandleAll(cap: int, demo: bool, mails: seq<Mail>, o: Outcome): Outcome
    decreases |mails|
  {
    if mails == [] then o else HandleAll(cap, demo, mails[1..], Handle(cap, demo, mails[0], o))
  }

  function SetOf(ids: seq<string>): set<string> {
    set i | 0 <= i < |ids| :: ids[i]
  }

  function Poll(cap: int, demo: bool, mails: seq<Mail>, st: State): State {
    var o := HandleAll(cap, demo, mails, Outcome(st, []));
    o.st.(seen := o.st.seen + SetOf(o.processed))
  }

  class Poller {
    var retryCounts: map<string, nat>
    var seen: set<string>
    ghost var handled: multiset<string>

    ghost function View(): State
      reads this
    {
      State(retryCounts, seen, handled)
    }

    /** The part of the loop body behind a run that failed. */
    method RecordFailure(cap: int, m: Mail, processed: seq<string>) returns (processed': seq<string>)
      modifies this
      ensures handled == old(handled)
      ensures var attempt := Attempts(old(View()), m.id) + 1;
              if attempt < cap then
                retryCounts == old(retryCounts)[m.id := attempt] && seen == old(seen) && processed' == processed
              else
                && retryCounts == old(retryCounts) - {m.id}
                && seen == old(seen) + (if m.bounceSent then {m.id} else {})
                && processed' == processed + (if m.bounceSent then [] else [m.id])
    {
      processed' := processed;
      var attempt := (if m.id in retryCounts then retryCounts[m.id] else 0) + 1;
      retryCounts := retryCounts[m.id := attempt];
      if attempt >= cap {
        if m.bounceSent {
          seen := seen + {m.id};
        } else {
          processed' := processed + [m.id];
        }
        retryCounts := retryCounts - {m.id};
      }
    }

    method HandleOne(cap: int, demo: bool, m: Mail, processed: seq<string>) returns (processed': seq<string>)
      modifies this
      ensures Outcome(View(), processed') == Handle(cap, demo, m, Outcome(old(View()), processed))
    {
      processed' := processed;
      if IsAutoReply(m.autoSubmitted) {
        seen := seen + {m.id};
        return;
      }
      if !m.allowed {
        if m.bounceSent {
          seen := seen + {m.id};
        }
        return;
      }
      if demo {
        seen := seen + {m.id};
        return;
      }
      if !m.prepared {
        return;
      }
      handled := handled + multiset{m.id};
      match m.end {
        case OutOfTurns(noticeNeeded) =>
          retryCounts := retryCounts - {m.id};
          if noticeNeeded && m.bounceSent {
            seen := seen + {m.id};
          } else {
            processed' := processed + [m.id];
          }
        case Failed =>
          processed' := RecordFailure(cap, m, processed);
        case Success =>
          retryCounts := retryCounts - {m.id};
          processed' := processed + [m.id];
      }
    }

    method ProcessNewEmails(cap: int, demo: bool, emails: seq<Mail>)
      modifies this
      ensures View() == Poll(cap, demo, emails, old(View()))
    {
      var processed: seq<string> := [];
      for i := 0 to |emails|
        invariant HandleAll(cap, demo, emails[i..], Outcome(View(), processed)) ==
                  HandleAll(cap, demo, emails, Outcome(old(View()), []))
      {
        assert emails[i..][1..] == emails[i + 1..];
        processed := HandleOne(cap, demo, emails[i], processed);
      }
      seen := seen + SetOf(processed);
    }
  }

  // ----- Bounded retries -----

  function Cap(cap: int): nat {
    if cap < 1 then 1 else cap
  }

  /** Stored counters lie below the cap, and a mail not yet done was handled exactly as often as its counter
      says.  `done` are the ids seen or about to be marked. */
  ghost predicate Bounded(cap: int, st: State, done: set<string>) {
    && (forall id :: id in st.retry ==> 1 <= st.retry[id] < cap)
    && (forall id :: id !in done ==> st.handled[id] == Attempts(st, id))
  }

  /** Between polls; `copies` is how often one poll may fetch the same id. */
  ghost predicate Inv(cap: int, copies: nat, st: State) {
    Bounded(cap, st, st.seen) && forall id :: st.handled[id] < Cap(cap) + copies
  }

  function Done(o: Outcome): set<string> {
    o.st.seen + SetOf(o.processed)
  }

  function Copies(mails: seq<Mail>, id: string): nat
    decreases |mails|
  {
    if mails == [] then 0 else (if mails[0].id == id then 1 else 0) + Copies(mails[1..], id)
  }

  /** What a poll fetches: unseen mails, a message id at most `copies` times. */
  ghost predicate Fresh(copies: nat, mails: seq<Mail>, seen: set<string>) {
    (forall i :: 0 <= i < |mails| ==> mails[i].id !in seen) && (forall id :: Copies(mails, id) <= copies)
  }

  lemma {:induction false} SetOfAppend(ids: seq<string>, id: string)
    ensures SetOf(ids + [id]) == SetOf(ids) + {id}
  {
    assert forall i :: 0 <= i < |ids| ==> (ids + [id])[i] == ids[i];
    assert (ids + [id])[|ids|] == id;
  }

  lemma {:induction false} HandleKeepsBound(cap: int, demo: bool, m: Mail, o: Outcome)
    requires Bounded(cap, o.st, Done(o))
    ensures Bounded(cap, Handle(cap, demo, m, o).st, Done(Handle(cap, demo, m, o)))
    ensures Done(o) <= Done(Handle(cap, demo, m, o)) <= Done(o) + {m.id}
  {
    SetOfAppend(o.processed, m.id);
    hide SetOf, Bounded, IsAutoReply;
    var st, next := o.st, Handle(cap, demo, m, o);
    if next.st.handled == st.handled {
      MarkingKeepsBound(cap, st, Done(o), next.st, Done(next));
    } else {
      CountingKeepsBound(cap, m.id, st, Done(o), next.st, Done(next));
    }
  }

  /** Without a run only ids are marked. */
  lemma {:induction false} MarkingKeepsBound(cap: int, st: State, done: set<string>, next: State, done': set<string>)
    requires Bounded(cap, st, done) && done <= done' && next.retry == st.retry && next.handled == st.handled
    ensures Bounded(cap, next, done')
  {
    forall id | id !in done' ensures next.handled[id] == Attempts(next, id) {
      assert st.handled[id] == Attempts(st, id);
    }
  }

  /** A run either raises the counter or drops it and marks its mail. */
  lemma {:induction false} CountingKeepsBound(cap: int, id: string, st: State, done: set<string>, next: State,
                                              done': set<string>)
    requires Bounded(cap, st, done) && done <= done' && next.handled == st.handled + multiset{id}
    requires || (Attempts(st, id) + 1 < cap && next.retry == st.retry[id := Attempts(st, id) + 1])
             || (id in done' && next.retry == st.retry - {id})
    ensures Bounded(cap, next, done')
  {
    forall x | x !in done' ensures next.handled[x] == Attempts(next, x) {
      assert st.handled[x] == Attempts(st, x);
    }
  }

  lemma {:induction false} HandleAllKeepsBound(cap: int, demo: bool, mails: seq<Mail>, o: Outcome)
    requires Bounded(cap, o.st, Done(o))
    ensures Bounded(cap, HandleAll(cap, demo, mails, o).st, Done(HandleAll(cap, demo, mails, o)))
    decreases |mails|
  {
    if mails != [] {
      HandleKeepsBound(cap, demo, mails[0], o);
      HandleAllKeepsBound(cap, demo, mails[1..], Handle(cap, demo, mails[0], o));
    }
  }

  /** One poll handles an id at most as often as it fetched it. */
  lemma {:induction false} HandledPerCopy(cap: int, demo: bool, mails: seq<Mail>, o: Outcome, id: string)
    ensures HandleAll(cap, demo, mails, o).st.handled[id] <= o.st.handled[id] + Copies(mails, id)
    decreases |mails|
  {
    if mails != [] {
      HandledPerCopy(cap, demo, mails[1..], Handle(cap, demo, mails[0], o), id);
    }
  }

  lemma {:induction false} NoCopies(mails: seq<Mail>, seen: set<string>, id: string)
    requires id in seen && forall i :: 0 <= i < |mails| ==> mails[i].id !in seen
    ensures Copies(mails, id) == 0
    decreases |mails|
  {
    if mails != [] {
      assert mails[0].id != id;
      assert forall i :: 0 <= i < |mails[1..]| ==> mails[1..][i] == mails[i + 1];
      NoCopies(mails[1..], seen, id);
    }
  }

  lemma {:induction false} PollKeepsBound(cap: int, copies: nat, demo: bool, mails: seq<Mail>, st: State)
    requires Inv(cap, copies, st) && Fresh(copies, mails, st.seen)
    ensures Inv(cap, copies, Poll(cap, demo, mails, st))
  {
    assert SetOf([]) == {};
    HandleAllKeepsBound(cap, demo, mails, Outcome(st, []));
    forall id ensures Poll(cap, demo, mails, st).handled[id] < Cap(cap) + copies {
      HandledPerCopy(cap, demo, mails, Outcome(st, []), id);
      if id in st.seen {
        NoCopies(mails, st.seen, id);
      } else {
        assert st.handled[id] == Attempts(st, id) < Cap(cap);
      }
    }
  }

  ghost predicate FreshPolls(cap: int, copies: nat, demo: bool, polls: seq<seq<Mail>>, st: State)
    decreases |polls|
  {
    polls == []
    || (Fresh(copies, polls[0], st.seen) && FreshPolls(cap, copies, demo, polls[1..], Poll(cap, demo, polls[0], st)))
  }

  function PollAll(cap: int, demo: bool, polls: seq<seq<Mail>>, st: State): State
    decreases |polls|
  {
    if polls == [] then st else PollAll(cap, demo, polls[1..], Poll(cap, demo, polls[0], st))
  }

  /** Across any sequence of polls every counter kept between polls is strictly below the cap (taken as one if
      it is lower), the counter of a mail still unseen says exactly how often it was handled, and no message
      id is passed to the agent as often as the cap and the number of copies in one poll together: at most up
      to the cap if a poll fetches each id once. */
  lemma {:induction false} RetriesStayBounded(cap: int, copies: nat, demo: bool, polls: seq<seq<Mail>>, st: State)
    requires Inv(cap, copies, st) && FreshPolls(cap, copies, demo, polls, st)
    ensures Inv(cap, copies, PollAll(cap, demo, polls, st))
    ensures forall id :: PollAll(cap, demo, polls, st).handled[id] < Cap(cap) + copies
    decreases |polls|
  {
    if polls != [] {
      PollKeepsBound(cap, copies, demo, polls[0], st);
      RetriesStayBounded(cap, copies, demo, polls[1..], Poll(cap, demo, polls[0], st));
    }
  }

  function Batch(m: Mail, copies: nat): seq<Mail> {
    seq(copies, _ => m)
  }

  /** The bound is reached: a mail that failed all but once comes in `copies` times, and every copy is handled. */
  lemma {:induction false} CopiesPassTheCap(cap: nat, copies: nat, m: Mail)
    requires cap > 0 && copies > 0 && !IsAutoReply(m.autoSubmitted) && m.allowed && m.prepared && m.end.Success?
    ensures var retry := if cap > 1 then map[m.id := cap - 1] else map[];
            var st := State(retry, {}, multiset{}[m.id := cap - 1]);
            var mails := Batch(m, copies);
            && Inv(cap, copies, st) && Fresh(copies, mails, st.seen)
            && Poll(cap, false, mails, st).handled[m.id] == cap - 1 + copies
  {
    var retry := if cap > 1 then map[m.id := cap - 1] else map[];
    var st := State(retry, {}, multiset{}[m.id := cap - 1]);
    SuccessPerCopy(cap, m, copies, Outcome(st, []));
    forall id ensures Copies(Batch(m, copies), id) <= copies {
      CopiesOf(m, copies, id);
    }
  }

  lemma {:induction false} CopiesOf(m: Mail, n: nat, id: string)
    ensures Copies(Batch(m, n), id) <= n
  {
    if n > 0 {
      assert Batch(m, n)[1..] == Batch(m, n - 1);
      CopiesOf(m, n - 1, id);
    }
  }

  lemma {:induction false} SuccessPerCopy(cap: int, m: Mail, n: nat, o: Outcome)
    requires !IsAutoReply(m.autoSubmitted) && m.allowed && m.prepared && m.end.Success?
    ensures HandleAll(cap, false, Batch(m, n), o).st.handled[m.id] == o.st.handled[m.id] + n
    decreases n
  {
    if n > 0 {
      assert Batch(m, n)[1..] == Batch(m, n - 1);
      SuccessPerCopy(cap, m, n - 1, Handle(cap, false, m, o));
    }
  }

  /** A mail whose run used up the cap is seen after the poll: it is not fetched again. */
  lemma {:induction false} ExhaustedIsSeen(cap: int, copies: nat, demo: bool, mails: seq<Mail>, st: State, id: string)
    requires Inv(cap, copies, st) && Fresh(copies, mails, st.seen)
    requires Poll(cap, demo, mails, st).handled[id] >= Cap(cap)
    ensures id in Poll(cap, demo, mails, st).seen
  {
    PollKeepsBound(cap, copies, demo, mails, st);
    var end := Poll(cap, demo, mails, st);
    assert id !in end.seen ==> end.handled[id] == Attempts(end, id);
  }

  lemma {:induction false} RejectedIsSkipped(cap: int, demo: bool, m: Mail, o: Outcome)
    requires IsAutoReply(m.autoSubmitted) || !m.allowed
    ensures Handle(cap, demo, m, o).st.handled == o.st.handled
  {
  }

  lemma {:induction false} OtherIsHandled(cap: int, demo: bool, m: Mail, o: Outcome, id: string)
    requires m.id != id
    ensures Handle(cap, demo, m, o).st.handled[id] == o.st.handled[id]
  {
  }

  /** Auto-replies and mail the access list rejects never reach the agent. */
  lemma {:induction false} RejectedNeverHandled(cap: int, demo: bool, mails: seq<Mail>, o: Outcome, id: string)
    requires forall i :: 0 <= i < |mails| && mails[i].id == id ==>
               IsAutoReply(mails[i].autoSubmitted) || !mails[i].allowed
    ensures HandleAll(cap, demo, mails, o).st.handled[id] == o.st.handled[id]
    decreases |mails|
  {
    hide Handle, IsAutoReply;
    if mails != [] {
      if mails[0].id == id {
        RejectedIsSkipped(cap, demo, mails[0], o);
      } else {
        OtherIsHandled(cap, demo, mails[0], o, id);
      }
      RejectedNeverHandled(cap, demo, mails[1..], Handle(cap, demo, mails[0], o), id);
    }
  }

  // ----- What a poll does with a mail -----

  /** "no" in any case. */
  predicate SaysNo(s: string) {
    |s| == 2 && s[0] in {'n', 'N'} && s[1] in {'o', 'O'}
  }

  /** The Auto-Submitted value is blank or, between spaces, "no". */
  ghost predicate NotAutomatic(v: string) {
    exists a, core, b :: v == a + core + b && IsBlank(a) && IsBlank(b) && (core == "" || SaysNo(core))
  }

  lemma {:induction false} LowerAppend(a: string, b: string)
    ensures ToLower(a + b) == ToLower(a) + ToLower(b)
  {
    if a == "" {
      assert a + b == b;
    } else {
      assert (a + b)[1..] == a[1..] + b;
      LowerAppend(a[1..], b);
    }
  }

  lemma {:induction false} LowerKeepsBlank(s: string)
    ensures IsBlank(ToLower(s)) <==> IsBlank(s)
  {
    ToLowerAt(s);
    forall i | 0 <= i < |s| ensures IsSpace(ToLower(s)[i]) <==> IsSpace(s[i]) {
      LowerKeepsMarks(s[i]);
    }
  }

  lemma {:induction false} LowerSaysNo(s: string)
    ensures ToLower(s) == "no" <==> SaysNo(s)
    ensures SaysNo(s) ==> !IsSpace(s[0]) && !IsSpace(s[1])
  {
    ToLowerAt(s);
    if SaysNo(s) {
      assert ToLower(s) == [ToLowerChar(s[0]), ToLowerChar(s[1])];
    }
  }

  /** Machine-generated mail is told by its Auto-Submitted value alone (section 5 of RFC 3834). */
  lemma {:induction false} AutoReplyMeaning(v: string)
    ensures IsAutoReply(v) <==> !NotAutomatic(v)
  {
    var l := ToLower(v);
    if !IsAutoReply(v) {
      var a, b := TrimSplits(l);
      var n, m := |a|, |a| + |Trim(l)|;
      assert v == v[..n] + v[n..m] + v[m..];
      LowerAppend(v[..n] + v[n..m], v[m..]);
      LowerAppend(v[..n], v[n..m]);
      assert ToLower(v[..n]) == a && ToLower(v[n..m]) == Trim(l) && ToLower(v[m..]) == b by {
        assert l == ToLower(v[..n]) + ToLower(v[n..m]) + ToLower(v[m..]);
        assert l[..n] == a && l[n..m] == Trim(l) && l[m..] == b;
        assert l[..n] == ToLower(v[..n]) && l[n..m] == ToLower(v[n..m]) && l[m..] == ToLower(v[m..]);
      }
      LowerKeepsBlank(v[..n]);
      LowerKeepsBlank(v[m..]);
      LowerSaysNo(v[n..m]);
    }
    if NotAutomatic(v) {
      var a, core, b :| v == a + core + b && IsBlank(a) && IsBlank(b) && (core == "" || SaysNo(core));
      LowerAppend(a + core, b);
      LowerAppend(a, core);
      LowerKeepsBlank(a);
      LowerKeepsBlank(b);
      LowerSaysNo(core);
      LowerSaysNo("no");
      TrimLeaves(ToLower(a), ToLower(core), ToLower(b));
    }
  }

  /** How a message id stands: how often it was handled, its counter, and whether it is or will be seen. */
  datatype Standing = Standing(handled: nat, retry: Option<nat>, done: bool)

  ghost function StandingOf(o: Outcome, id: string): Standing {
    Standing(o.st.handled[id], if id in o.st.retry then Some(o.st.retry[id]) else None, id in Done(o))
  }

  lemma {:induction false} OthersStand(cap: int, demo: bool, m: Mail, o: Outcome, id: string)
    requires m.id != id
    ensures StandingOf(Handle(cap, demo, m, o), id) == StandingOf(o, id)
  {
    SetOfAppend(o.processed, m.id);
    hide SetOf, IsAutoReply;
  }

  lemma {:induction false} AllOthersStand(cap: int, demo: bool, mails: seq<Mail>, o: Outcome, id: string)
    requires forall i :: 0 <= i < |mails| ==> mails[i].id != id
    ensures StandingOf(HandleAll(cap, demo, mails, o), id) == StandingOf(o, id)
    decreases |mails|
  {
    if mails != [] {
      OthersStand(cap, demo, mails[0], o, id);
      AllOthersStand(cap, demo, mails[1..], Handle(cap, demo, mails[0], o), id);
    }
  }

  /** A mail reaches the agent exactly if it is no auto-reply, is allowed, there is a model to ask, and its history
      could be prepared. */
  ghost predicate Reaches(demo: bool, m: Mail) {
    NotAutomatic(m.autoSubmitted) && m.allowed && !demo && m.prepared
  }

  /** One mail: a run counts and a failed one is tried again until the cap; everything else that is over is marked
      as seen, except rejected mail whose bounce fails. */
  ghost predicate MailEffect(cap: int, demo: bool, m: Mail, before: Standing, after: Standing) {
    var tries := (if before.retry.Some? then before.retry.value else 0) + 1;
    var again := Reaches(demo, m) && m.end.Failed? && tries < cap;
    && after.handled == before.handled + (if Reaches(demo, m) then 1 else 0)
    && after.retry == (if again then Some(tries) else if Reaches(demo, m) then None else before.retry)
    && (after.done <==>
        || before.done
        || !NotAutomatic(m.autoSubmitted)
        || (if !m.allowed then m.bounceSent else demo || (m.prepared && !again)))
  }

  lemma {:induction false} OneMail(cap: int, demo: bool, m: Mail, o: Outcome)
    ensures MailEffect(cap, demo, m, StandingOf(o, m.id), StandingOf(Handle(cap, demo, m, o), m.id))
  {
    AutoReplyMeaning(m.autoSubmitted);
    SetOfAppend(o.processed, m.id);
    hide SetOf, IsAutoReply, NotAutomatic;
  }

  /** Every poll has this effect on each mail whose id it fetches once, and none on other ids. */
  lemma {:induction false} PollMeaning(cap: int, demo: bool, mails: seq<Mail>, st: State, i: nat)
    requires i < |mails| && forall j :: 0 <= j < |mails| && j != i ==> mails[j].id != mails[i].id
    ensures var end := Poll(cap, demo, mails, st);
            MailEffect(cap, demo, mails[i], StandingOf(Outcome(st, []), mails[i].id),
                       StandingOf(Outcome(end, []), mails[i].id))
    ensures forall id :: (forall j :: 0 <= j < |mails| ==> mails[j].id != id) ==>
              StandingOf(Outcome(Poll(cap, demo, mails, st), []), id) == StandingOf(Outcome(st, []), id)
  {
    var o := HandleAll(cap, demo, mails, Outcome(st, []));
    assert SetOf([]) == {};
    forall id ensures StandingOf(Outcome(Poll(cap, demo, mails, st), []), id) == StandingOf(o, id) {
    }
    forall id | forall j :: 0 <= j < |mails| ==> mails[j].id != id
      ensures StandingOf(o, id) == StandingOf(Outcome(st, []), id)
    {
      AllOthersStand(cap, demo, mails, Outcome(st, []), id);
    }
    MailInBatch(cap, demo, mails, Outcome(st, []), i);
  }

  lemma {:induction false} MailInBatch(cap: int, demo: bool, mails: seq<Mail>, o: Outcome, i: nat)
    requires i < |mails| && forall j :: 0 <= j < |mails| && j != i ==> mails[j].id != mails[i].id
    ensures var id := mails[i].id;
            MailEffect(cap, demo, mails[i], StandingOf(o, id), StandingOf(HandleAll(cap, demo, mails, o), id))
    decreases |mails|
  {
    hide MailEffect, StandingOf, Handle;
    var rest, next := mails[1..], Handle(cap, demo, mails[0], o);
    assert forall j :: 0 <= j < |rest| ==> rest[j] == mails[j + 1];
    if i == 0 {
      OneMail(cap, demo, mails[0], o);
      AllOthersStand(cap, demo, rest, next, mails[0].id);
    } else {
      OthersStand(cap, demo, mails[0], o, mails[i].id);
      MailInBatch(cap, demo, rest, next, i - 1);
    }
  }
}
