/** Threading of delegated work and the unwinding of auto-replies hop by hop (internal/tools/send_helper.go:
    sendEmail, sameThread; internal/services/emailing.go: SendEmail, SendBounce, GetThreadRoot;
    cmd/kikubot/main.go: handleAutoReply).  Message ids carry their angle brackets; addresses are bare and
    lower-case. */
module Delegation {
  import opened Strings

  /** The headers that matter for threading (section 3.6.4 of RFC 5322). */
  datatype Mail = Mail(id: string, refs: seq<string>, inReplyTo: string, from: string, to: set<string>)

  /** Every mail ever delivered, the ids in each address's INBOX, and the addresses that are agents. */
  datatype World = World(mails: map<string, Mail>, boxes: map<string, set<string>>, agents: set<string>)

  function Box(w: World, agent: string): set<string> {
    if agent in w.boxes then w.boxes[agent] else {}
  }

  function ThreadRoot(m: Mail): string {
    if m.refs == [] then m.id else m.refs[0]
  }

  predicate SameThread(a: Mail, b: Mail) {
    ThreadRoot(a) != "" && ThreadRoot(b) != "" && ToLower(ThreadRoot(a)) == ToLower(ThreadRoot(b))
  }

  // ----- Outgoing references -----

  /** What the model asks for: a reply target, a mail to forward, either empty. */
  datatype Directive = Directive(inReplyTo: string, forward: string)

  datatype Threading = Threading(refs: seq<string>, inReplyTo: string)

  /** The reference branches of sendEmail; None when a named mail is not in the INBOX.  `src` is the
      trusted inbound mail of the turn. */
  function SendThreading(w: World, agent: string, d: Directive, src: Option<Mail>): Option<Threading>
    requires forall id | id in Box(w, agent) :: id in w.mails
  {
    var trusted := src.Some? && src.value.id != "";
    if d.inReplyTo != "" && d.inReplyTo !in Box(w, agent) then None
    else if d.forward != "" && d.forward !in Box(w, agent) then None
    else if d.inReplyTo != "" then
      var reply := w.mails[d.inReplyTo];
      if trusted && SameThread(src.value, reply) then Some(Threading(src.value.refs + [src.value.id], src.value.id))
      else Some(Threading(reply.refs + [reply.id], d.inReplyTo))
    else if d.forward != "" then
      Some(Threading(w.mails[d.forward].refs + [w.mails[d.forward].id], ""))
    else if trusted then Some(Threading(src.value.refs + [src.value.id], ""))
    else Some(Threading([], ""))
  }

  method ComputeThreading(w: World, agent: string, d: Directive, src: Option<Mail>) returns (t: Option<Threading>)
    requires forall id | id in Box(w, agent) :: id in w.mails
    ensures t == SendThreading(w, agent, d, src)
  {
    var references: seq<string> := [];
    var inReplyTo := d.inReplyTo;
    if inReplyTo != "" {
      if inReplyTo !in Box(w, agent) {
        return None;
      }
      var reply := w.mails[inReplyTo];
      if src.Some? && src.value.id != "" && SameThread(src.value, reply) {
        inReplyTo := src.value.id;
        references := src.value.refs + [src.value.id];
      } else {
        references := reply.refs + [reply.id];
      }
    } else if d.forward != "" {
      if d.forward !in Box(w, agent) {
        return None;
      }
      references := w.mails[d.forward].refs + [w.mails[d.forward].id];
    } else if src.Some? && src.value.id != "" {
      references := src.value.refs + [src.value.id];
    }
    if inReplyTo != "" && d.forward != "" && d.forward !in Box(w, agent) {
      return None;
    }
    return Some(Threading(references, inReplyTo));
  }

  /** The header SendEmail writes: In-Reply-To is added to References if it is not among them. */
  function Header(t: Threading): seq<string> {
    if t.inReplyTo != "" && t.inReplyTo !in t.refs then t.refs + [t.inReplyTo] else t.refs
  }

  function BounceThreading(received: Mail): Threading {
    Threading(received.refs, received.id)
  }

  function NotifyThreading(upstream: Mail): Threading {
    Threading(upstream.refs + [upstream.id], upstream.id)
  }

  /** Recipients of a tool send: never the agent itself. */
  function Recipients(agent: string, to: set<string>): set<string> {
    set a | a in to && a != "" && a != agent
  }

  // ----- What agents send -----

  ghost predicate Follows(refs: seq<string>, parent: Mail) {
    refs == parent.refs + [parent.id]
  }

  /** In-Reply-To, if there is one, names the newest reference. */
  ghost predicate NamesParent(m: Mail) {
    m.inReplyTo != "" ==> m.refs != [] && m.refs[|m.refs| - 1] == m.inReplyTo
  }

  /** A mail of an agent starts a thread or follows a mail in that agent's INBOX. */
  ghost predicate Threaded(w: World, m: Mail) {
    && NamesParent(m)
    && (m.refs == [] || exists id :: id in Box(w, m.from) && id in w.mails && Follows(m.refs, w.mails[id]))
  }

  /** The one exception: a bounce, back to the outside, of a mail that lists its own id. */
  ghost predicate BouncesSelfListing(w: World, m: Mail) {
    exists id :: id in Box(w, m.from) && id in w.mails && SelfListingAnswered(w, m, w.mails[id])
  }

  ghost predicate SelfListingAnswered(w: World, m: Mail, received: Mail) {
    && received.from !in w.agents && received.id in received.refs
    && m.refs == received.refs && m.to == {received.from}
  }

  ghost predicate Lawful(w: World, m: Mail) {
    m.id !in m.refs && (Threaded(w, m) || BouncesSelfListing(w, m))
  }

  /** Agents thread what they send, and INBOXes hold known mails addressed to them, an agent's none of its own.
      Nothing is assumed of the References of anybody else's mail. */
  ghost predicate Inv(w: World) {
    && (forall id :: id in w.mails ==> w.mails[id].id == id && id != "")
    && (forall id :: id in w.mails && w.mails[id].from in w.agents ==> Lawful(w, w.mails[id]))
    && (forall address, id :: id in Box(w, address) ==> id in w.mails && address in w.mails[id].to)
    && (forall agent, id :: agent in w.agents && id in Box(w, agent) ==> w.mails[id].from != agent)
  }

  /** The first reference, or the own id, without regard to case. */
  predicate SharesThread(a: Mail, b: Mail) {
    var x, y := if a.refs == [] then a.id else a.refs[0], if b.refs == [] then b.id else b.refs[0];
    x != "" && y != "" && ToLower(x) == ToLower(y)
  }

  /** What a send follows: a reply the trusted mail of the turn if it is in the same thread, else the mail named;
      a forward the mail forwarded; anything else the trusted mail, if there is one. */
  function ParentOf(w: World, d: Directive, src: Option<Mail>): Option<Mail>
    requires (d.inReplyTo != "" ==> d.inReplyTo in w.mails) && (d.forward != "" ==> d.forward in w.mails)
  {
    if d.inReplyTo != "" then
      if src.Some? && src.value.id != "" && SharesThread(src.value, w.mails[d.inReplyTo]) then src
      else Some(w.mails[d.inReplyTo])
    else if d.forward != "" then Some(w.mails[d.forward])
    else if src.Some? && src.value.id != "" then src
    else None
  }

  /** A send fails exactly if a mail it names is not in the INBOX.  Otherwise its header follows its parent, and is
      empty if it has none; it names the parent in In-Reply-To exactly if it is a reply. */
  lemma {:induction false} SendMeaning(w: World, agent: string, d: Directive, src: Option<Mail>)
    requires Inv(w)
    ensures var t := SendThreading(w, agent, d, src);
            && (t.None? <==> (d.inReplyTo != "" && d.inReplyTo !in Box(w, agent))
                             || (d.forward != "" && d.forward !in Box(w, agent)))
            && (t.Some? ==>
                  var parent := ParentOf(w, d, src);
                  && (parent.Some? ==> Follows(Header(t.value), parent.value))
                  && (parent.None? ==> Header(t.value) == [])
                  && (d.inReplyTo == "" ==> t.value.inReplyTo == "")
                  && (d.inReplyTo != "" ==> parent.Some? && t.value.inReplyTo == parent.value.id))
  {
    if d.inReplyTo != "" && d.inReplyTo in Box(w, agent) {
      assert w.mails[d.inReplyTo].id == d.inReplyTo;
    }
  }

  /** Every mail a tool sends follows a mail in the agent's INBOX, unless there is nothing it could follow: no mail
      replied to, none forwarded, and no trusted mail. */
  lemma {:induction false} SendFollowsParent(w: World, agent: string, d: Directive, src: Option<Mail>)
    requires Inv(w) && SendThreading(w, agent, d, src).Some?
    requires src.Some? ==> src.value.id in Box(w, agent) && w.mails[src.value.id] == src.value
    ensures var t := SendThreading(w, agent, d, src).value;
            && (Header(t) == [] ==> d.inReplyTo == "" && d.forward == "" && src.None?)
            && (Header(t) == [] || exists id :: id in Box(w, agent) && id in w.mails && Follows(Header(t), w.mails[id]))
            && (t.inReplyTo != "" ==> Header(t) != [] && Header(t)[|Header(t)| - 1] == t.inReplyTo)
  {
    if d.inReplyTo != "" {
      assert w.mails[d.inReplyTo].id == d.inReplyTo;
      assert src.Some? ==> Follows(src.value.refs + [src.value.id], w.mails[src.value.id]);
    } else if d.forward != "" {
      assert w.mails[d.forward].id == d.forward;
    } else if src.Some? {
      assert Follows(src.value.refs + [src.value.id], w.mails[src.value.id]);
    }
  }

  /** The notification of an upstream follows it.  So does a bounce, exactly unless the mail it answers lists
      its own id among its references. */
  lemma {:induction false} BounceFollowsParent(received: Mail)
    requires received.id != ""
    ensures Follows(Header(BounceThreading(received)), received) <==> received.id !in received.refs
    ensures Follows(Header(NotifyThreading(received)), received)
  {
    assert received.id in received.refs ==> |Header(BounceThreading(received))| == |received.refs|;
  }

  /** A mail that follows a parent stays in its parent's thread. */
  lemma {:induction false} FollowingKeepsRoot(m: Mail, parent: Mail)
    requires Follows(m.refs, parent)
    ensures ThreadRoot(m) == ThreadRoot(parent)
  {
  }

  datatype Delivery =
    | ToolSend(agent: string, id: string, d: Directive, src: Option<Mail>, to: set<string>)
    | Bounce(agent: string, id: string, received: Mail)
    | Notify(agent: string, id: string, upstream: Mail)
    | Outside(m: Mail)

  function Post(w: World, m: Mail): World {
    World(w.mails[m.id := m],
          map address | address in w.boxes.Keys + m.to ::
            Box(w, address) + if address in m.to then {m.id} else {},
          w.agents)
  }

  ghost predicate FreshId(w: World, id: string) {
    id != "" && id !in w.mails
  }

  /** An agent draws its ids at random: nobody has referenced one before. */
  ghost predicate OwnId(w: World, id: string) {
    FreshId(w, id) && forall other :: other in w.mails ==> id !in w.mails[other].refs
  }

  ghost predicate InInbox(w: World, agent: string, m: Mail) {
    m.id in Box(w, agent) && m.id in w.mails && w.mails[m.id] == m
  }

  /** The trusted mail of a turn lies in the agent's INBOX, and so does what is bounced or passed on.  A
      mail from outside is arbitrary, except that its sender is no agent. */
  ghost predicate GoodDelivery(w: World, s: Delivery) {
    match s
    case ToolSend(agent, id, d, src, to) =>
      && OwnId(w, id) && agent in w.agents && Inv(w) && SendThreading(w, agent, d, src).Some?
      && (src.Some? ==> InInbox(w, agent, src.value))
    case Bounce(agent, id, received) =>
      OwnId(w, id) && agent in w.agents && InInbox(w, agent, received)
    case Notify(agent, id, upstream) =>
      OwnId(w, id) && agent in w.agents && InInbox(w, agent, upstream)
    case Outside(m) =>
      FreshId(w, m.id) && m.from !in w.agents
  }

  ghost function MailOf(w: World, s: Delivery): Mail
    requires GoodDelivery(w, s)
  {
    match s
    case ToolSend(agent, id, d, src, to) =>
      var t := SendThreading(w, agent, d, src).value;
      Mail(id, Header(t), t.inReplyTo, agent, Recipients(agent, to))
    case Bounce(agent, id, received) =>
      Mail(id, Header(BounceThreading(received)), received.id, agent, {received.from})
    case Notify(agent, id, upstream) =>
      Mail(id, Header(NotifyThreading(upstream)), upstream.id, agent, {upstream.from})
    case Outside(m) => m
  }

  /** Everything delivered stays delivered. */
  ghost predicate Extends(w: World, v: World) {
    && v.agents == w.agents
    && (forall id :: id in w.mails ==> id in v.mails && v.mails[id] == w.mails[id])
    && (forall address, id :: id in Box(w, address) ==> id in Box(v, address))
  }

  lemma {:induction false} ThreadedStays(w: World, v: World, m: Mail)
    requires Extends(w, v) && Threaded(w, m)
    ensures Threaded(v, m)
  {
    if m.refs != [] {
      var id :| id in Box(w, m.from) && id in w.mails && Follows(m.refs, w.mails[id]);
      assert id in Box(v, m.from) && id in v.mails && Follows(m.refs, v.mails[id]);
    }
  }

  lemma {:induction false} LawfulStays(w: World, v: World, m: Mail)
    requires Extends(w, v) && Lawful(w, m)
    ensures Lawful(v, m)
  {
    if Threaded(w, m) {
      ThreadedStays(w, v, m);
    } else {
      var id :| id in Box(w, m.from) && id in w.mails && SelfListingAnswered(w, m, w.mails[id]);
      assert id in Box(v, m.from) && id in v.mails && SelfListingAnswered(v, m, v.mails[id]);
    }
  }

  lemma {:induction false} PostExtends(w: World, m: Mail)
    requires FreshId(w, m.id)
    ensures Extends(w, Post(w, m))
    ensures forall address :: Box(Post(w, m), address) == Box(w, address) + (if address in m.to then {m.id} else {})
  {
  }

  lemma {:induction false} PostKeepsLaw(w: World, m: Mail)
    requires Inv(w) && FreshId(w, m.id)
    requires m.from in w.agents ==> Lawful(w, m) && m.from !in m.to
    ensures Inv(Post(w, m)) && Extends(w, Post(w, m))
  {
    var v := Post(w, m);
    PostExtends(w, m);
    hide Post, Box, Lawful;
    forall id | id in v.mails && v.mails[id].from in v.agents ensures Lawful(v, v.mails[id]) {
      PostedMail(w, m, id);
      LawfulStays(w, v, v.mails[id]);
    }
    forall id | id in v.mails ensures v.mails[id].id == id && id != "" {
      PostedMail(w, m, id);
    }
    forall address, id | id in Box(v, address) ensures id in v.mails && address in v.mails[id].to {
      PostedMail(w, m, id);
    }
  }

  lemma {:induction false} PostedMail(w: World, m: Mail, id: string)
    ensures var v := Post(w, m);
            && v.agents == w.agents && (id in v.mails <==> id in w.mails || id == m.id)
            && (id in v.mails ==> v.mails[id] == if id == m.id then m else w.mails[id])
  {
  }

  /** An agent's new mail that follows one in the INBOX does not list its own id. */
  lemma {:induction false} FollowingIsLawful(w: World, m: Mail)
    requires Inv(w) && OwnId(w, m.id) && Threaded(w, m)
    ensures Lawful(w, m)
  {
    if m.refs != [] {
      var id :| id in Box(w, m.from) && id in w.mails && Follows(m.refs, w.mails[id]);
      assert m.id !in w.mails[id].refs && m.id != w.mails[id].id;
    }
  }

  /** What an agent finds in its INBOX from another agent is threaded. */
  lemma {:induction false} AgentsMailIsThreaded(w: World, agent: string, m: Mail)
    requires Inv(w) && agent in w.agents && InInbox(w, agent, m) && m.from in w.agents
    ensures Threaded(w, m) && m.id !in m.refs
  {
    assert Lawful(w, m) && agent in m.to;
  }

  /** A bounce is threaded, or answers an outside mail that lists its own id. */
  lemma {:induction false} BounceIsLawful(w: World, agent: string, id: string, received: Mail)
    requires Inv(w) && GoodDelivery(w, Bounce(agent, id, received))
    ensures Lawful(w, MailOf(w, Bounce(agent, id, received)))
  {
    var m := MailOf(w, Bounce(agent, id, received));
    BounceFollowsParent(received);
    assert received.id in Box(w, m.from) && id !in received.refs && id != received.id;
    if received.id in received.refs {
      if received.from in w.agents {
        AgentsMailIsThreaded(w, agent, received);
      }
      assert SelfListingAnswered(w, m, w.mails[received.id]);
    } else {
      assert Follows(m.refs, w.mails[received.id]);
      FollowingIsLawful(w, m);
    }
  }

  lemma {:induction false} NotifyIsLawful(w: World, agent: string, id: string, upstream: Mail)
    requires Inv(w) && GoodDelivery(w, Notify(agent, id, upstream))
    ensures Lawful(w, MailOf(w, Notify(agent, id, upstream)))
  {
    var m := MailOf(w, Notify(agent, id, upstream));
    BounceFollowsParent(upstream);
    assert upstream.id in Box(w, m.from) && Follows(m.refs, w.mails[upstream.id]);
    FollowingIsLawful(w, m);
  }

  lemma {:induction false} DeliveryKeepsLaw(w: World, s: Delivery)
    requires Inv(w) && GoodDelivery(w, s)
    ensures Inv(Post(w, MailOf(w, s))) && Extends(w, Post(w, MailOf(w, s)))
  {
    match s {
      case ToolSend(agent, id, d, src, to) =>
        SendFollowsParent(w, agent, d, src);
        FollowingIsLawful(w, MailOf(w, s));
      case Bounce(agent, id, received) =>
        BounceIsLawful(w, agent, id, received);
      case Notify(agent, id, upstream) =>
        NotifyIsLawful(w, agent, id, upstream);
      case Outside(_) =>
    }
    PostKeepsLaw(w, MailOf(w, s));
  }

  ghost predicate GoodDeliveries(w: World, steps: seq<Delivery>)
    decreases |steps|
  {
    steps == [] || (GoodDelivery(w, steps[0]) && GoodDeliveries(Post(w, MailOf(w, steps[0])), steps[1..]))
  }

  ghost function PostAll(w: World, steps: seq<Delivery>): World
    requires GoodDeliveries(w, steps)
    decreases |steps|
  {
    if steps == [] then w else PostAll(Post(w, MailOf(w, steps[0])), steps[1..])
  }

  /** Whatever agents send, bounce or propagate, and whatever arrives from outside, every mail of an agent
      starts a thread or follows a mail in its INBOX -- or bounces a mail that lists its own id, and goes to no
      agent. */
  lemma {:induction false} LawHoldsThroughout(w: World, steps: seq<Delivery>)
    requires Inv(w) && GoodDeliveries(w, steps)
    ensures Inv(PostAll(w, steps)) && Extends(w, PostAll(w, steps))
    decreases |steps|
  {
    if steps != [] {
      DeliveryKeepsLaw(w, steps[0]);
      LawHoldsThroughout(Post(w, MailOf(w, steps[0])), steps[1..]);
    }
  }

  // ----- Walking back to the upstream -----

  /** Position of the newest reference found in `box`, -1 if none is. */
  function NewestIn(refs: seq<string>, box: set<string>): (i: int)
    ensures -1 <= i < |refs|
    ensures i >= 0 ==> refs[i] in box && refs[i] != ""
    ensures forall j :: i < j < |refs| ==> refs[j] !in box || refs[j] == ""
    decreases |refs|
  {
    if refs == [] then -1
    else if refs[|refs| - 1] != "" && refs[|refs| - 1] in box then |refs| - 1
    else NewestIn(refs[..|refs| - 1], box)
  }

  function FirstIn(ids: seq<string>, box: set<string>): Option<string> {
    if ids == [] then None
    else if ids[0] != "" && ids[0] in box then Some(ids[0])
    else FirstIn(ids[1..], box)
  }

  function Reverse(ids: seq<string>): seq<string> {
    if ids == [] then [] else [ids[|ids| - 1]] + Reverse(ids[..|ids| - 1])
  }

  /** Parents of an outbound mail, In-Reply-To first, then its references from the newest. */
  function Parents(sent: Mail): seq<string> {
    (if sent.inReplyTo != "" then [sent.inReplyTo] else []) + Reverse(sent.refs)
  }

  /** The agent's copy of its own outbound, in the Sent folder. */
  predicate InSent(w: World, agent: string, id: string) {
    id != "" && id in w.mails && w.mails[id].from == agent
  }

  /** Sent-folder fallback: the newest reference that is an own outbound with a parent in the INBOX. */
  function ViaSent(w: World, agent: string, refs: seq<string>): Option<string>
    decreases |refs|
  {
    if refs == [] then None
    else
      var last := refs[|refs| - 1];
      if InSent(w, agent, last) && FirstIn(Parents(w.mails[last]), Box(w, agent)).Some?
      then FirstIn(Parents(w.mails[last]), Box(w, agent))
      else ViaSent(w, agent, refs[..|refs| - 1])
  }

  function Upstream(w: World, agent: string, refs: seq<string>): Option<string> {
    var i := NewestIn(refs, Box(w, agent));
    if i >= 0 then Some(refs[i]) else ViaSent(w, agent, refs)
  }

  method FirstInBox(ids: seq<string>, box: set<string>) returns (hit: Option<string>)
    ensures hit == FirstIn(ids, box)
  {
    for i := 0 to |ids|
      invariant FirstIn(ids[i..], box) == FirstIn(ids, box)
    {
      assert ids[i..][1..] == ids[i + 1..];
      if ids[i] == "" {
        continue;
      }
      if ids[i] in box {
        return Some(ids[i]);
      }
    }
    return None;
  }

  method FindUpstream(w: World, agent: string, refs: seq<string>) returns (upstream: Option<string>)
    ensures upstream == Upstream(w, agent, refs)
  {
    var box := Box(w, agent);
    var i := |refs|;
    while i > 0
      invariant 0 <= i <= |refs|
      invariant NewestIn(refs[..i], box) == NewestIn(refs, box)
    {
      i := i - 1;
      assert refs[..i + 1][..i] == refs[..i];
      if refs[i] == "" {
        continue;
      }
      if refs[i] in box {
        return Some(refs[i]);
      }
    }
    i := |refs|;
    assert refs[..i] == refs;
    while i > 0
      invariant 0 <= i <= |refs|
      invariant ViaSent(w, agent, refs[..i]) == ViaSent(w, agent, refs)
    {
      i := i - 1;
      assert refs[..i + 1][..i] == refs[..i];
      if !InSent(w, agent, refs[i]) {
        continue;
      }
      var hit := FirstInBox(Parents(w.mails[refs[i]]), box);
      if hit.Some? {
        return hit;
      }
    }
    return None;
  }

  lemma {:induction false} ViaSentMeaning(w: World, agent: string, refs: seq<string>)
    ensures ViaSent(w, agent, refs).Some? ==> ViaSent(w, agent, refs).value in Box(w, agent)
    decreases |refs|
  {
    if refs != [] {
      ViaSentMeaning(w, agent, refs[..|refs| - 1]);
      if InSent(w, agent, refs[|refs| - 1]) {
        FirstInMeaning(Parents(w.mails[refs[|refs| - 1]]), Box(w, agent));
      }
    }
  }

  /** Where the Sent-folder walk stops: the newest reference that is an own outbound with a parent in the INBOX. */
  lemma {:induction false} ViaSentIsNewest(w: World, agent: string, refs: seq<string>) returns (i: int)
    ensures -1 <= i < |refs|
    ensures forall j :: i < j < |refs| && InSent(w, agent, refs[j]) ==>
              FirstIn(Parents(w.mails[refs[j]]), Box(w, agent)).None?
    ensures i < 0 ==> ViaSent(w, agent, refs).None?
    ensures i >= 0 ==>
              InSent(w, agent, refs[i]) && ViaSent(w, agent, refs).Some?
              && ViaSent(w, agent, refs) == FirstIn(Parents(w.mails[refs[i]]), Box(w, agent))
    decreases |refs|
  {
    if refs == [] {
      return -1;
    }
    var n := |refs| - 1;
    if InSent(w, agent, refs[n]) && FirstIn(Parents(w.mails[refs[n]]), Box(w, agent)).Some? {
      return n;
    }
    i := ViaSentIsNewest(w, agent, refs[..n]);
    assert forall j :: 0 <= j < n ==> refs[..n][j] == refs[j];
  }

  /** The parents of an outbound: In-Reply-To, if there is one, then its references from the newest. */
  lemma {:induction false} ParentsInOrder(sent: Mail)
    ensures var n := if sent.inReplyTo == "" then 0 else 1;
            && |Parents(sent)| == n + |sent.refs|
            && (n == 1 ==> Parents(sent)[0] == sent.inReplyTo)
            && forall k :: n <= k < |Parents(sent)| ==> Parents(sent)[k] == sent.refs[|Parents(sent)| - 1 - k]
  {
    ReverseAt(sent.refs);
  }

  lemma {:induction false} ReverseAt(ids: seq<string>)
    ensures |Reverse(ids)| == |ids|
    ensures forall j :: 0 <= j < |ids| ==> Reverse(ids)[j] == ids[|ids| - 1 - j]
  {
    if ids != [] {
      ReverseAt(ids[..|ids| - 1]);
    }
  }

  lemma {:induction false} FirstInMeaning(ids: seq<string>, box: set<string>)
    ensures FirstIn(ids, box).Some? ==> FirstIn(ids, box).value in ids && FirstIn(ids, box).value in box
  {
    if ids != [] {
      FirstInMeaning(ids[1..], box);
    }
  }

  /** A mail the agent has sent. */
  ghost predicate SentBy(w: World, agent: string, sent: Mail) {
    sent.id in w.mails && w.mails[sent.id] == sent && sent.from == agent
  }

  /** The Sent-folder walk goes from an own mail straight to the mail it follows. */
  lemma {:induction false} ParentOfSent(w: World, agent: string, sent: Mail)
    requires Inv(w) && SentBy(w, agent, sent) && Threaded(w, sent)
    ensures FirstIn(Parents(sent), Box(w, agent))
         == if sent.refs == [] then None else Some(sent.refs[|sent.refs| - 1])
  {
    if sent.refs == [] {
      assert sent.inReplyTo == "" && Reverse(sent.refs) == [];
    } else {
      var last := sent.refs[|sent.refs| - 1];
      var id :| id in Box(w, agent) && id in w.mails && Follows(sent.refs, w.mails[id]);
      assert last == id && id != "";
      assert Reverse(sent.refs)[0] == last;
      assert Parents(sent)[0] == last;
    }
  }

  // ----- Unwinding terminates -----

  /** An auto-reply that reached `agent` answers one of the agent's own threaded mails: it follows it. */
  ghost predicate ReplyTo(w: World, agent: string, refs: seq<string>) {
    && refs != []
    && var id := refs[|refs| - 1];
       id in w.mails && w.mails[id].from == agent && Follows(refs, w.mails[id]) && Threaded(w, w.mails[id])
  }

  lemma {:induction false} ReplyStays(w: World, v: World, agent: string, refs: seq<string>)
    requires Extends(w, v) && ReplyTo(w, agent, refs)
    ensures ReplyTo(v, agent, refs)
  {
    ThreadedStays(w, v, w.mails[refs[|refs| - 1]]);
  }

  /** What an agent's bounce or notification carries is, for an agent that sent the mail it follows, an answer. */
  lemma {:induction false} AnswerIsReplyTo(w: World, agent: string, parent: Mail, refs: seq<string>)
    requires Inv(w) && agent in w.agents && InInbox(w, agent, parent) && Follows(refs, parent)
    requires parent.from in w.agents
    ensures ReplyTo(w, parent.from, refs)
  {
    AgentsMailIsThreaded(w, agent, parent);
  }

  /** Both walks together find exactly the mail that the answered mail follows: the last reference but one.
      There is none if the answered mail started its thread. */
  lemma {:induction false} UpstreamIsParent(w: World, agent: string, refs: seq<string>)
    requires Inv(w) && agent in w.agents && ReplyTo(w, agent, refs)
    ensures Upstream(w, agent, refs) == if |refs| == 1 then None else Some(refs[|refs| - 2])
  {
    var n, box := |refs|, Box(w, agent);
    var own := w.mails[refs[n - 1]];
    assert Threaded(w, own) && refs[n - 1] !in box;
    assert refs == own.refs + [own.id];
    assert refs[..n - 1] == own.refs;
    if n == 1 {
      assert NewestIn(refs[..0], box) == -1;
      ParentOfSent(w, agent, own);
      assert ViaSent(w, agent, refs[..0]) == None;
    } else {
      var id :| id in box && id in w.mails && Follows(own.refs, w.mails[id]);
      assert refs[n - 2] == own.refs[n - 2] == id;
      assert id != "";
    }
  }

  /** One hop of any auto-reply, whatever references it names: the mail found lies in the INBOX, the
      notification follows it, and where that mail came from an agent, the notification is an answer there. */
  lemma {:induction false} AnyHopAnswers(w: World, agent: string, refs: seq<string>)
    requires Inv(w) && agent in w.agents && Upstream(w, agent, refs).Some?
    ensures var id := Upstream(w, agent, refs).value;
            && id in Box(w, agent) && id in w.mails
            && Follows(Header(NotifyThreading(w.mails[id])), w.mails[id])
            && (w.mails[id].from in w.agents ==> ReplyTo(w, w.mails[id].from, Header(NotifyThreading(w.mails[id]))))
  {
    ViaSentMeaning(w, agent, refs);
    var u := w.mails[Upstream(w, agent, refs).value];
    BounceFollowsParent(u);
    if u.from in w.agents {
      AnswerIsReplyTo(w, agent, u, Header(NotifyThreading(u)));
    }
  }

  /** One hop of an answer: the notification carries the references received without the last, and is in
      turn an answer if the upstream's sender is an agent. */
  lemma {:induction false} HopShortensReferences(w: World, agent: string, refs: seq<string>)
    requires Inv(w) && agent in w.agents && ReplyTo(w, agent, refs) && |refs| > 1
    ensures var id := refs[|refs| - 2];
            && Upstream(w, agent, refs) == Some(id) && id in w.mails
            && Header(NotifyThreading(w.mails[id])) == refs[..|refs| - 1]
            && (w.mails[id].from in w.agents ==> ReplyTo(w, w.mails[id].from, refs[..|refs| - 1]))
  {
    UpstreamIsParent(w, agent, refs);
    AnyHopAnswers(w, agent, refs);
    var n := |refs|;
    var own := w.mails[refs[n - 1]];
    assert Threaded(w, own) && refs[..n - 1] == own.refs;
    var id :| id in Box(w, agent) && id in w.mails && Follows(own.refs, w.mails[id]);
    assert refs[n - 2] == own.refs[n - 2] == id;
  }

  /** A notification on its way: whom it reaches and the references it carries. */
  datatype Note = Note(to: string, refs: seq<string>)

  /** The notification of one hop.  An auto-reply from the very party that would be notified is not passed on. */
  function Notice(w: World, agent: string, from: string, refs: seq<string>): Option<Note> {
    var id := Upstream(w, agent, refs);
    if id.None? || id.value !in w.mails then None
    else
      var u := w.mails[id.value];
      if ToLower(from) == ToLower(u.from) then None else Some(Note(u.from, Header(NotifyThreading(u))))
  }

  /** An answer is passed on exactly if the mail it answers followed one, and that did not come from the party the
      answer comes from; it then goes to that mail's sender, with the references received but the last. */
  lemma {:induction false} NoticeMeaning(w: World, agent: string, from: string, refs: seq<string>)
    requires Inv(w) && agent in w.agents && ReplyTo(w, agent, refs)
    ensures |refs| == 1 ==> Notice(w, agent, from, refs) == None
    ensures |refs| > 1 ==>
              && refs[|refs| - 2] in w.mails
              && var sender := w.mails[refs[|refs| - 2]].from;
                 Notice(w, agent, from, refs)
                 == if ToLower(from) == ToLower(sender) then None else Some(Note(sender, refs[..|refs| - 1]))
  {
    UpstreamIsParent(w, agent, refs);
    if |refs| > 1 {
      HopShortensReferences(w, agent, refs);
    }
  }

  /** What an agent sends, and to whom: a tool never writes to its own agent, a bounce and a notice go to the sender
      of the mail they follow. */
  lemma {:induction false} DeliveredTo(w: World, s: Delivery)
    requires GoodDelivery(w, s)
    ensures s.ToolSend? ==>
              forall a :: a in MailOf(w, s).to <==> a in s.to && a != "" && a != s.agent
    ensures s.Bounce? ==> MailOf(w, s).to == {s.received.from}
    ensures s.Notify? ==> MailOf(w, s).to == {s.upstream.from}
    ensures !s.Outside? ==> MailOf(w, s).from == s.agent && MailOf(w, s).id == s.id
    ensures s.Outside? ==> MailOf(w, s) == s.m
  {
  }

  /** A proper, non-empty prefix: fewer references, same thread root. */
  predicate ShorterPrefix(r: seq<string>, refs: seq<string>) {
    r != [] && |r| < |refs| && r == refs[..|r|]
  }

  lemma {:induction false} PrefixOfPrefix(r: seq<string>, mid: seq<string>, refs: seq<string>)
    requires ShorterPrefix(r, mid) && ShorterPrefix(mid, refs)
    ensures ShorterPrefix(r, refs)
  {
  }

  ghost predicate AllShorter(notes: seq<Note>, refs: seq<string>) {
    forall k :: 0 <= k < |notes| ==> ShorterPrefix(notes[k].refs, refs)
  }

  lemma {:induction false} OneHopMore(to: string, next: seq<string>, rest: seq<Note>, refs: seq<string>)
    requires ShorterPrefix(next, refs) && AllShorter(rest, next) && |rest| < |next|
    ensures AllShorter([Note(to, next)] + rest, refs) && |[Note(to, next)] + rest| < |refs|
  {
    forall k | 0 <= k < |rest| ensures ShorterPrefix(rest[k].refs, refs) {
      PrefixOfPrefix(rest[k].refs, next, refs);
    }
  }

  /** What has been delivered when hop k happens: notifications, and anything else in between. */
  ghost predicate Growing(worlds: nat -> World) {
    forall k: nat :: Inv(worlds(k)) && Extends(worlds(k), worlds(k + 1))
  }

  /** The notifications an answer sets off, hop by hop; a party that is no agent does not pass anything on.
      The chain is shorter than the list of references it starts from, and every notification carries a
      proper, non-empty prefix of that list. */
  ghost function Unwind(worlds: nat -> World, k: nat, agent: string, from: string, refs: seq<string>)
    : (notes: seq<Note>)
    requires Growing(worlds) && agent in worlds(k).agents && ReplyTo(worlds(k), agent, refs)
    ensures |notes| < |refs| && AllShorter(notes, refs)
    decreases |refs|
  {
    var w := worlds(k);
    assert Inv(w) && Extends(w, worlds(k + 1));
    UpstreamIsParent(w, agent, refs);
    match Notice(w, agent, from, refs)
    case None => []
    case Some(note) =>
      HopShortensReferences(w, agent, refs);
      if note.to !in w.agents then [note]
      else
        ReplyStays(w, worlds(k + 1), note.to, note.refs);
        var rest := Unwind(worlds, k + 1, note.to, agent, note.refs);
        OneHopMore(note.to, note.refs, rest, refs);
        [note] + rest
  }

  /** The same for an auto-reply with arbitrary references, a foreign notice for instance: after the first
      notification the chain is an answer's, so it is no longer than the references of that notification. */
  ghost function UnwindAny(worlds: nat -> World, agent: string, from: string, refs: seq<string>): (notes: seq<Note>)
    requires Growing(worlds) && agent in worlds(0).agents
    ensures notes != [] ==> |notes| <= |notes[0].refs| && AllShorter(notes[1..], notes[0].refs)
  {
    var w := worlds(0);
    assert Inv(w) && Extends(w, worlds(1));
    match Notice(w, agent, from, refs)
    case None => []
    case Some(note) =>
      AnyHopAnswers(w, agent, refs);
      if note.to !in w.agents then [note]
      else
        ReplyStays(w, worlds(1), note.to, note.refs);
        var rest := Unwind(worlds, 1, note.to, agent, note.refs);
        assert ([note] + rest)[1..] == rest;
        [note] + rest
  }

  /** A hop's notification, posted under a fresh id, is one of the deliveries that keep the law; so hops and
      anything delivered between them make a growing sequence. */
  lemma {:induction false} NotificationIsGood(w: World, agent: string, refs: seq<string>, id: string)
    requires Inv(w) && agent in w.agents && Upstream(w, agent, refs).Some? && OwnId(w, id)
    ensures Upstream(w, agent, refs).value in w.mails
    ensures var s := Notify(agent, id, w.mails[Upstream(w, agent, refs).value]);
            GoodDelivery(w, s) && Inv(Post(w, MailOf(w, s))) && Extends(w, Post(w, MailOf(w, s)))
  {
    AnyHopAnswers(w, agent, refs);
    DeliveryKeepsLaw(w, Notify(agent, id, w.mails[Upstream(w, agent, refs).value]));
  }

  /** The thread root never changes along the chain. */
  lemma {:induction false} ShorterPrefixKeepsRoot(r: seq<string>, refs: seq<string>, id: string, id': string, m: Mail)
    requires ShorterPrefix(r, refs)
    ensures ThreadRoot(m.(id := id, refs := r)) == ThreadRoot(m.(id := id', refs := refs))
  {
  }

  /** A foreign notice that names own outbounds only, with no reference in the INBOX: the walk through the
      Sent folder stops at the newest of them that follows a mail, and the notification carries exactly that
      outbound's references. */
  lemma {:induction false} SentFallbackStaysInThread(w: World, agent: string, refs: seq<string>, sent: Mail)
    requires Inv(w) && refs != [] && NewestIn(refs, Box(w, agent)) < 0
    requires refs[|refs| - 1] == sent.id && SentBy(w, agent, sent) && Threaded(w, sent) && sent.refs != []
    ensures Upstream(w, agent, refs) == Some(sent.refs[|sent.refs| - 1])
    ensures sent.refs[|sent.refs| - 1] in w.mails
    ensures Header(NotifyThreading(w.mails[sent.refs[|sent.refs| - 1]])) == sent.refs
  {
    ParentOfSent(w, agent, sent);
    var id :| id in Box(w, agent) && id in w.mails && Follows(sent.refs, w.mails[id]);
    assert id == sent.refs[|sent.refs| - 1];
    BounceFollowsParent(w.mails[id]);
  }

  // ----- Forged senders -----

  /** The first n notifications of a chain. */
  function FirstNotes(w: World, agent: string, from: string, refs: seq<string>, n: nat): seq<Note>
    decreases n
  {
    if n == 0 then []
    else match Notice(w, agent, from, refs)
      case None => []
      case Some(note) =>
        [note] + if note.to in w.agents then FirstNotes(w, note.to, agent, note.refs, n - 1) else []
  }

  /** Three mails from outside, each in the name of an agent, and each referencing the one that the agent named
      as its sender has received. */
  function Forged(): World {
    var w := World(map[], map[], {"a", "b", "c"});
    var one := Post(w, Mail("1", ["2"], "", "a", {"b"}));
    var two := Post(one, Mail("2", ["3"], "", "c", {"a"}));
    Post(two, Mail("3", ["1"], "", "b", {"c"}))
  }

  lemma {:induction false} ForgedMails()
    ensures var w := Forged();
            && w.agents == {"a", "b", "c"} && w.mails.Keys == {"1", "2", "3"}
            && w.mails["1"] == Mail("1", ["2"], "", "a", {"b"})
            && w.mails["2"] == Mail("2", ["3"], "", "c", {"a"})
            && w.mails["3"] == Mail("3", ["1"], "", "b", {"c"})
            && Box(w, "a") == {"2"} && Box(w, "b") == {"1"} && Box(w, "c") == {"3"}
  {
    assert "a" != "b" && "b" != "c" && "a" != "c" by {
      assert "a"[0] != "b"[0] && "b"[0] != "c"[0] && "a"[0] != "c"[0];
    }
    assert "1" != "2" && "2" != "3" && "1" != "3" by {
      assert "1"[0] != "2"[0] && "2"[0] != "3"[0] && "1"[0] != "3"[0];
    }
  }

  /** A hop at an agent whose INBOX holds nothing but the older of the two mails named. */
  lemma {:induction false} RingHop(w: World, agent: string, from: string, u: Mail, own: string, n: nat)
    requires Box(w, agent) == {u.id} && own != u.id && u.id != "" && |u.refs| == 1
    requires u.id in w.mails && w.mails[u.id] == u && ToLower(from) != ToLower(u.from) && u.from in w.agents
    ensures var next := [u.refs[0], u.id];
            FirstNotes(w, agent, from, [u.id, own], n + 1)
            == [Note(u.from, next)] + FirstNotes(w, u.from, agent, next, n)
  {
    var refs := [u.id, own];
    assert refs[..1] == [u.id];
    assert NewestIn(refs, Box(w, agent)) == 0;
    assert u.refs + [u.id] == [u.refs[0], u.id];
  }

  /** The chains that pass through the ring from b, a and c. */
  function FromB(n: nat): seq<Note> {
    FirstNotes(Forged(), "b", "c", ["1", "3"], n)
  }

  function FromA(n: nat): seq<Note> {
    FirstNotes(Forged(), "a", "b", ["2", "1"], n)
  }

  function FromC(n: nat): seq<Note> {
    FirstNotes(Forged(), "c", "a", ["3", "2"], n)
  }

  lemma {:induction false} RingNotes(n: nat)
    ensures FromB(n + 1) == [Note("a", ["2", "1"])] + FromA(n)
    ensures FromA(n + 1) == [Note("c", ["3", "2"])] + FromC(n)
    ensures FromC(n + 1) == [Note("b", ["1", "3"])] + FromB(n)
  {
    ForgedMails();
    LowerOfRing();
    hide Forged, Box, FirstNotes;
    RingHop(Forged(), "b", "c", Mail("1", ["2"], "", "a", {"b"}), "3", n);
    RingHop(Forged(), "a", "b", Mail("2", ["3"], "", "c", {"a"}), "1", n);
    RingHop(Forged(), "c", "a", Mail("3", ["1"], "", "b", {"c"}), "2", n);
  }

  lemma {:induction false} LowerOfRing()
    ensures ToLower("a") != ToLower("b") && ToLower("b") != ToLower("c") && ToLower("a") != ToLower("c")
  {
    assert ToLower("a")[0] == 'a' && ToLower("b")[0] == 'b' && ToLower("c")[0] == 'c';
  }

  lemma {:induction false} OneRound(n: nat)
    ensures |FromB(n + 3)| == |FromB(n)| + 3
  {
    hide *;
    RingNotes(n + 2);
    RingNotes(n + 1);
    RingNotes(n);
  }

  /** Without the assumption on senders unwinding does not end: the notifications go round, from b to a, to c and
      to b again, with the same references each time. */
  lemma {:induction false} ForgedSendersNeverEnd(rounds: nat)
    ensures |FirstNotes(Forged(), "b", "c", ["1", "3"], 3 * rounds)| == 3 * rounds
  {
    assert |FromB(0)| == 0;
    RoundsAddUp(rounds);
  }

  lemma {:induction false} RoundsAddUp(rounds: nat)
    requires |FromB(0)| == 0
    ensures |FromB(3 * rounds)| == 3 * rounds
  {
    hide *;
    if rounds > 0 {
      RoundsAddUp(rounds - 1);
      OneRound(3 * (rounds - 1));
    }
  }
}
