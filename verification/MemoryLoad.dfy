/** The repair pipeline a saved conversation goes through when it is read back
    (internal/services/memory.go, readMemoryFile and its passes). */
module MemoryLoad {
  import opened Strings
  import opened Transcript

  // ----- Pass 1: corrupt server-side results and the calls that produced them -----

  predicate IsCorrupt(b: Block) {
    b.ServerResult? && b.corrupt
  }

  predicate AnyCorrupt(bs: seq<Block>) {
    exists i :: 0 <= i < |bs| && IsCorrupt(bs[i])
  }

  /** The ids named by corrupt results; an empty id is not recorded. */
  function OrphanedCallIds(bs: seq<Block>): set<string> {
    set i | 0 <= i < |bs| && IsCorrupt(bs[i]) && bs[i].id != "" :: bs[i].id
  }

  predicate KeepBlock(b: Block, orphaned: set<string>) {
    !IsCorrupt(b) && !(b.ServerCall? && b.id in orphaned)
  }

  function KeepClean(bs: seq<Block>, orphaned: set<string>): seq<Block> {
    if bs == [] then []
    else (if KeepBlock(bs[0], orphaned) then [bs[0]] else []) + KeepClean(bs[1..], orphaned)
  }

  /** None when nothing of the message is left. */
  function StripCorrupt(m: Message): Option<Message> {
    if m.Unreadable? then Some(m)
    else if !AnyCorrupt(m.content) then (if m.content == [] then None else Some(m))
    else
      var kept := KeepClean(m.content, OrphanedCallIds(m.content));
      if kept == [] then None else Some(m.(content := kept))
  }

  method StripCorruptServerResults(m: Message) returns (out: Message, keep: bool)
    ensures StripCorrupt(m) == if keep then Some(out) else None
  {
    if m.Unreadable? {
      return m, true;
    }
    var blocks := m.content;
    var corrupt := new bool[|blocks|];
    var orphaned: set<string> := {};
    var anyCorrupt := false;
    for i := 0 to |blocks|
      invariant forall j :: 0 <= j < i ==> corrupt[j] == IsCorrupt(blocks[j])
      invariant orphaned == OrphanedCallIds(blocks[..i])
      invariant anyCorrupt == AnyCorrupt(blocks[..i])
    {
      corrupt[i] := false;
      OrphanedStep(blocks, i);
      if IsCorrupt(blocks[i]) {
        corrupt[i] := true;
        anyCorrupt := true;
        if blocks[i].id != "" {
          orphaned := orphaned + {blocks[i].id};
        }
      }
    }
    assert blocks[..|blocks|] == blocks;
    if !anyCorrupt {
      return m, |blocks| > 0;
    }
    var kept := KeepUncorrupted(blocks, corrupt, orphaned);
    if |kept| == 0 {
      return m, false;
    }
    return m.(content := kept), true;
  }

  lemma {:induction false} KeepCleanStep(bs: seq<Block>, i: nat, orphaned: set<string>)
    requires i < |bs|
    ensures var rest := KeepClean(bs[i + 1..], orphaned);
            KeepClean(bs[i..], orphaned) == if KeepBlock(bs[i], orphaned) then [bs[i]] + rest else rest
  {
    assert bs[i..][1..] == bs[i + 1..];
    assert [] + KeepClean(bs[i + 1..], orphaned) == KeepClean(bs[i + 1..], orphaned);
  }

  method KeepUncorrupted(blocks: seq<Block>, corrupt: array<bool>, orphaned: set<string>) returns (kept: seq<Block>)
    requires corrupt.Length == |blocks| && forall i :: 0 <= i < |blocks| ==> corrupt[i] == IsCorrupt(blocks[i])
    ensures kept == KeepClean(blocks, orphaned)
  {
    kept := [];
    for i := 0 to |blocks|
      invariant KeepClean(blocks, orphaned) == kept + KeepClean(blocks[i..], orphaned)
    {
      KeepCleanStep(blocks, i, orphaned);
      AppendOne(kept, blocks[i], KeepClean(blocks[i + 1..], orphaned));
      if !corrupt[i] && !(blocks[i].ServerCall? && blocks[i].id in orphaned) {
        kept := kept + [blocks[i]];
      }
    }
    assert kept + [] == kept;
  }

  lemma {:induction false} OrphanedStep(bs: seq<Block>, i: nat)
    requires i < |bs|
    ensures OrphanedCallIds(bs[..i + 1]) ==
            OrphanedCallIds(bs[..i]) + if IsCorrupt(bs[i]) && bs[i].id != "" then {bs[i].id} else {}
    ensures AnyCorrupt(bs[..i + 1]) <==> AnyCorrupt(bs[..i]) || IsCorrupt(bs[i])
  {
    var a, b := bs[..i], bs[..i + 1];
    assert b[i] == bs[i];
    assert forall j :: 0 <= j < i ==> a[j] == b[j];
    forall id | id in OrphanedCallIds(a) ensures id in OrphanedCallIds(b) {
      var j :| 0 <= j < |a| && IsCorrupt(a[j]) && a[j].id != "" && a[j].id == id;
      assert b[j].id == id;
    }
    if AnyCorrupt(a) {
      var j :| 0 <= j < |a| && IsCorrupt(a[j]);
      assert IsCorrupt(b[j]);
    }
  }

  // ----- Pass 2: citations and keys the API does not accept -----

  function StripBlock(b: Block): Block {
    match b
    case Text(_, _, _) => b.(citations := false)
    case ServerCall(_, _) => b.(extraFields := false)
    case _ => b
  }

  function StripBlocks(bs: seq<Block>): seq<Block> {
    if bs == [] then [] else [StripBlock(bs[0])] + StripBlocks(bs[1..])
  }

  function StripCitations(m: Message): Message {
    if m.Unreadable? then m else m.(content := StripBlocks(m.content))
  }

  method StripCitationsFromMessage(m: Message) returns (out: Message)
    ensures out == StripCitations(m)
  {
    if m.Unreadable? {
      return m;
    }
    var content := m.content;
    var changed := false;
    for i := 0 to |content|
      invariant |content| == |m.content|
      invariant StripBlocks(m.content) == content[..i] + StripBlocks(m.content[i..])
      invariant forall j :: i <= j < |content| ==> content[j] == m.content[j]
      invariant !changed ==> content == m.content
    {
      assert m.content[i..][1..] == m.content[i + 1..];
      var b := content[i];
      AppendOne(content[..i], StripBlock(b), StripBlocks(m.content[i + 1..]));
      if b.Text? && b.citations {
        content := content[i := b.(citations := false)];
        changed := true;
      } else if b.ServerCall? && b.extraFields {
        content := content[i := b.(extraFields := false)];
        changed := true;
      }
      assert content[..i + 1] == content[..i] + [StripBlock(b)];
    }
    assert content[..|content|] == content;
    assert m.content[|content|..] == [] && content + [] == content;
    out := if changed then m.(content := content) else m;
  }

  // ----- Pass 3: thinking blocks the API would reject -----

  predicate Unusable(b: Block) {
    match b
    case Thinking(thinking, signature) => IsBlank(signature) || IsBlank(thinking)
    case RedactedThinking(data) => IsBlank(data)
    case _ => false
  }

  function DropUnusable(bs: seq<Block>): seq<Block> {
    if bs == [] then []
    else (if Unusable(bs[0]) then [] else [bs[0]]) + DropUnusable(bs[1..])
  }

  function StripThinking(m: Message): Message {
    if m.Unreadable? || DropUnusable(m.content) == [] then m else m.(content := DropUnusable(m.content))
  }

  method StripUnusableThinking(m: Message) returns (out: Message)
    ensures out == StripThinking(m)
  {
    if m.Unreadable? {
      return m;
    }
    var kept, dropped := KeepUsable(m.content);
    if !dropped || |kept| == 0 {
      return m;
    }
    return m.(content := kept);
  }

  method KeepUsable(content: seq<Block>) returns (kept: seq<Block>, dropped: bool)
    ensures kept == DropUnusable(content) && (!dropped ==> kept == content)
  {
    kept, dropped := [], false;
    for i := 0 to |content|
      invariant DropUnusable(content) == kept + DropUnusable(content[i..])
      invariant !dropped ==> kept == content[..i]
    {
      DropUnusableStep(content, i);
      AppendOne(kept, content[i], DropUnusable(content[i + 1..]));
      if Unusable(content[i]) {
        dropped := true;
      } else {
        kept := kept + [content[i]];
      }
    }
    assert content[..|content|] == content && kept + [] == kept;
  }

  lemma {:induction false} DropUnusableStep(bs: seq<Block>, i: nat)
    requires i < |bs|
    ensures var rest := DropUnusable(bs[i + 1..]);
            DropUnusable(bs[i..]) == if Unusable(bs[i]) then rest else [bs[i]] + rest
  {
    assert bs[i..][1..] == bs[i + 1..];
    assert [] + DropUnusable(bs[i + 1..]) == DropUnusable(bs[i + 1..]);
  }

  // ----- Pass 4: leading messages that cannot start a conversation -----

  function TrimLead(h: seq<Message>): seq<Message> {
    if h == [] || SafeCut(h[0]) then h else TrimLead(h[1..])
  }

  method HasToolResult(m: Message) returns (found: bool)
    ensures found <==> Results(m) != multiset{}
  {
    var bs := Blocks(m);
    for i := 0 to |bs|
      invariant ResultIds(bs[i..]) == ResultIds(bs)
    {
      assert bs[i..][1..] == bs[i + 1..];
      if bs[i].ToolResult? {
        assert ResultIds(bs[i..])[0] in Results(m);
        return true;
      }
    }
    return false;
  }

  method TrimOrphanedLeadingMessages(history: seq<Message>) returns (out: seq<Message>)
    ensures out == TrimLead(history)
  {
    out := history;
    while |out| > 0
      invariant TrimLead(out) == TrimLead(history)
    {
      if out[0].Unreadable? || out[0].role != USER {
        out := out[1..];
        continue;
      }
      var hasToolResult := HasToolResult(out[0]);
      if hasToolResult {
        out := out[1..];
        continue;
      }
      break;
    }
  }

  // ----- The pipeline -----

  function SanitizeMessage(m: Message): Option<Message> {
    match StripCorrupt(m)
    case None => None
    case Some(n) => Some(StripThinking(StripCitations(n)))
  }

  function Sanitize(h: seq<Message>): seq<Message> {
    if h == [] then []
    else (match SanitizeMessage(h[0]) case None => [] case Some(m) => [m]) + Sanitize(h[1..])
  }

  /** Surviving messages are wrapped so that they are re-sent as stored. */
  function Wrap(h: seq<Message>): seq<Message> {
    if h == [] then []
    else [if h[0].Turn? then h[0].(loaded := true) else h[0]] + Wrap(h[1..])
  }

  function Load(stored: seq<Message>): seq<Message> {
    Wrap(TrimLead(Sanitize(stored)))
  }

  method ReadMemory(stored: seq<Message>) returns (history: seq<Message>)
    ensures history == Load(stored)
  {
    var sanitized := SanitizeStored(stored);
    sanitized := TrimOrphanedLeadingMessages(sanitized);
    history := WrapAll(sanitized);
  }

  lemma {:induction false} SanitizeTail(h: seq<Message>, i: nat)
    requires i < |h|
    ensures var rest := Sanitize(h[i + 1..]);
            var m := SanitizeMessage(h[i]);
            Sanitize(h[i..]) == if m.None? then rest else [m.value] + rest
  {
    assert h[i..][1..] == h[i + 1..];
    assert [] + Sanitize(h[i + 1..]) == Sanitize(h[i + 1..]);
  }

  /** The first loop of readMemoryFile: the three stripping passes message by message. */
  method SanitizeStored(stored: seq<Message>) returns (sanitized: seq<Message>)
    ensures sanitized == Sanitize(stored)
  {
    sanitized := [];
    for i := 0 to |stored|
      invariant Sanitize(stored) == sanitized + Sanitize(stored[i..])
    {
      SanitizeTail(stored, i);
      var stripped, keep := StripCorruptServerResults(stored[i]);
      if !keep {
        continue;
      }
      var clean := StripCitationsFromMessage(stripped);
      clean := StripUnusableThinking(clean);
      AppendOne(sanitized, clean, Sanitize(stored[i + 1..]));
      sanitized := sanitized + [clean];
    }
    assert sanitized + [] == sanitized;
  }

  /** The second loop: every survivor becomes a message that is re-sent as stored. */
  method WrapAll(sanitized: seq<Message>) returns (history: seq<Message>)
    ensures history == Wrap(sanitized)
  {
    history := [];
    for i := 0 to |sanitized|
      invariant Wrap(sanitized) == history + Wrap(sanitized[i..])
    {
      var m := sanitized[i];
      var wrapped := if m.Turn? then m.(loaded := true) else m;
      assert sanitized[i..][1..] == sanitized[i + 1..];
      AppendOne(history, wrapped, Wrap(sanitized[i + 1..]));
      history := history + [wrapped];
    }
    assert history + [] == history;
  }

  // ----- Client-tool blocks pass through untouched -----

  lemma {:induction false} KeepCleanKeepsTools(bs: seq<Block>, orphaned: set<string>)
    ensures ToolBlocks(KeepClean(bs, orphaned)) == ToolBlocks(bs)
  {
    if bs != [] {
      KeepCleanKeepsTools(bs[1..], orphaned);
      var rest := KeepClean(bs[1..], orphaned);
      if KeepBlock(bs[0], orphaned) {
        assert ([bs[0]] + rest)[1..] == rest;
      } else {
        assert [] + rest == rest;
      }
    }
  }

  lemma {:induction false} StripBlocksKeepsTools(bs: seq<Block>)
    ensures ToolBlocks(StripBlocks(bs)) == ToolBlocks(bs)
  {
    if bs != [] {
      StripBlocksKeepsTools(bs[1..]);
      assert StripBlocks(bs)[1..] == StripBlocks(bs[1..]);
    }
  }

  lemma {:induction false} DropUnusableKeepsTools(bs: seq<Block>)
    ensures ToolBlocks(DropUnusable(bs)) == ToolBlocks(bs)
  {
    if bs != [] {
      DropUnusableKeepsTools(bs[1..]);
      var rest := DropUnusable(bs[1..]);
      if Unusable(bs[0]) {
        assert [] + rest == rest;
      } else {
        assert ([bs[0]] + rest)[1..] == rest;
      }
    }
  }

  /** Sanitizing one message keeps its role and its client-tool blocks; only a message without any
      is dropped. */
  lemma {:induction false} SanitizeKeepsTools(m: Message)
    ensures SanitizeMessage(m).None? ==> m.Turn? && ToolBlocks(m.content) == []
    ensures SanitizeMessage(m).Some? ==>
              var n := SanitizeMessage(m).value;
              && n.Turn? == m.Turn?
              && (m.Turn? ==> n.role == m.role && n.loaded == m.loaded)
              && ToolBlocks(Blocks(n)) == ToolBlocks(Blocks(m))
  {
    if m.Turn? {
      KeepCleanKeepsTools(m.content, OrphanedCallIds(m.content));
      if StripCorrupt(m).Some? {
        var n := StripCorrupt(m).value;
        StripBlocksKeepsTools(n.content);
        DropUnusableKeepsTools(StripBlocks(n.content));
      }
    }
  }

  /** Tool calls and results of a whole history, in order. */
  function AllToolBlocks(h: seq<Message>): seq<Block> {
    if h == [] then [] else ToolBlocks(Blocks(h[0])) + AllToolBlocks(h[1..])
  }

  lemma {:induction false} SanitizeKeepsAllTools(h: seq<Message>)
    ensures AllToolBlocks(Sanitize(h)) == AllToolBlocks(h)
  {
    if h != [] {
      SanitizeKeepsAllTools(h[1..]);
      SanitizeKeepsTools(h[0]);
      if SanitizeMessage(h[0]).Some? {
        assert Sanitize(h)[1..] == Sanitize(h[1..]);
      } else {
        assert Sanitize(h) == Sanitize(h[1..]);
      }
    }
  }

  lemma {:induction false} WrapKeeps(h: seq<Message>)
    ensures |Wrap(h)| == |h|
    ensures forall i :: 0 <= i < |h| ==> Blocks(Wrap(h)[i]) == Blocks(h[i])
    ensures forall i :: 0 <= i < |h| ==> Wrap(h)[i].Turn? == h[i].Turn?
    ensures forall i :: 0 <= i < |h| && h[i].Turn? ==> Wrap(h)[i] == h[i].(loaded := true)
    ensures AllToolBlocks(Wrap(h)) == AllToolBlocks(h)
  {
    if h != [] {
      WrapKeeps(h[1..]);
      assert Wrap(h)[1..] == Wrap(h[1..]);
    }
  }

  lemma {:induction false} TrimLeadIsSuffix(h: seq<Message>) returns (cut: nat)
    ensures cut <= |h| && TrimLead(h) == h[cut..]
    ensures forall i :: 0 <= i < cut ==> !SafeCut(h[i])
    ensures Led(TrimLead(h))
  {
    if h == [] || SafeCut(h[0]) {
      cut := 0;
    } else {
      var c := TrimLeadIsSuffix(h[1..]);
      cut := c + 1;
      assert h[1..][c..] == h[cut..];
      assert forall i :: 1 <= i < cut ==> h[i] == h[1..][i - 1];
    }
  }

  lemma {:induction false} AllToolBlocksAppend(a: seq<Message>, b: seq<Message>)
    ensures AllToolBlocks(a + b) == AllToolBlocks(a) + AllToolBlocks(b)
  {
    if a == [] {
      assert a + b == b;
    } else {
      assert (a + b)[1..] == a[1..] + b;
      AllToolBlocksAppend(a[1..], b);
    }
  }

  lemma {:induction false} TrimLeadKeepsAllTools(h: seq<Message>) returns (cut: nat)
    ensures cut <= |h| && TrimLead(h) == h[cut..]
    ensures forall i :: 0 <= i < cut ==> !SafeCut(h[i])
    ensures AllToolBlocks(h[..cut]) + AllToolBlocks(TrimLead(h)) == AllToolBlocks(h)
  {
    cut := TrimLeadIsSuffix(h);
    var a, b := h[..cut], h[cut..];
    assert h == a + b;
    AllToolBlocksAppend(a, b);
  }

  /** Everything the load drops lies before the first message that can start a conversation: the
      client-tool blocks of the result are exactly those of the sanitized history behind the dropped
      leading messages, and all of them together are the ones that were stored. */
  lemma {:induction false} LoadKeepsTools(stored: seq<Message>) returns (cut: nat)
    ensures cut <= |Sanitize(stored)|
    ensures forall i :: 0 <= i < cut ==> !SafeCut(Sanitize(stored)[i])
    ensures AllToolBlocks(Load(stored)) == AllToolBlocks(Sanitize(stored)[cut..])
    ensures AllToolBlocks(Sanitize(stored)[..cut]) + AllToolBlocks(Load(stored)) == AllToolBlocks(stored)
  {
    cut := TrimLeadKeepsAllTools(Sanitize(stored));
    WrapKeeps(TrimLead(Sanitize(stored)));
    SanitizeKeepsAllTools(stored);
  }

  // ----- Pairing survives -----

  lemma {:induction false} SanitizeKeepsPairing(open: multiset<string>, h: seq<Message>)
    requires PairedFrom(open, h)
    ensures PairedFrom(open, Sanitize(h))
    ensures OpenAfter(open, Sanitize(h)) == OpenAfter(open, h)
    decreases |h|
  {
    if h != [] {
      var m, rest := h[0], h[1..];
      PairedCons(open, m, rest);
      assert h == [m] + rest;
      SanitizeKeepsPairing(Uses(m), rest);
      SanitizeStep(h);
      if SanitizeMessage(m).Some? {
        PairedCons(open, SanitizeMessage(m).value, Sanitize(rest));
      }
    }
  }

  /** One message of the sanitizing loop, as far as pairing is concerned. */
  lemma {:induction false} SanitizeStep(h: seq<Message>)
    requires h != []
    ensures SanitizeMessage(h[0]).None? ==>
              && Sanitize(h) == Sanitize(h[1..])
              && Uses(h[0]) == multiset{} && Results(h[0]) == multiset{}
    ensures SanitizeMessage(h[0]).Some? ==>
              var n := SanitizeMessage(h[0]).value;
              && Sanitize(h) == [n] + Sanitize(h[1..])
              && Uses(n) == Uses(h[0]) && Results(n) == Results(h[0])
              && Disciplined(n) == Disciplined(h[0])
  {
    SanitizeKeepsTools(h[0]);
    ToolBlocksCarryIds(Blocks(h[0]));
    if SanitizeMessage(h[0]).Some? {
      SameToolBlocks(h[0], SanitizeMessage(h[0]).value);
    }
  }

  lemma {:induction false} TrimLeadKeepsPairing(open: multiset<string>, h: seq<Message>)
    requires PairedFrom(open, h)
    ensures WellPaired(TrimLead(h))
    ensures TrimLead(h) != [] ==> OpenAfter(multiset{}, TrimLead(h)) == OpenAfter(open, h)
    decreases |h|
  {
    if h != [] {
      assert h == [h[0]] + h[1..];
      PairedCons(open, h[0], h[1..]);
      if !SafeCut(h[0]) {
        assert TrimLead(h) == TrimLead(h[1..]);
        TrimLeadKeepsPairing(Uses(h[0]), h[1..]);
      }
    }
  }

  lemma {:induction false} WrapKeepsPairing(open: multiset<string>, h: seq<Message>)
    requires PairedFrom(open, h)
    ensures PairedFrom(open, Wrap(h)) && OpenAfter(open, Wrap(h)) == OpenAfter(open, h)
    decreases |h|
  {
    if h != [] {
      var w := Wrap(h)[0];
      SameToolBlocks(h[0], w);
      assert h == [h[0]] + h[1..] && Wrap(h) == [w] + Wrap(h[1..]);
      PairedCons(open, h[0], h[1..]);
      PairedCons(open, w, Wrap(h[1..]));
      WrapKeepsPairing(Uses(h[0]), h[1..]);
    }
  }

  /** A well-paired stored history is loaded as a well-paired one that starts with a plain user turn;
      nothing that was answered becomes unanswered. */
  lemma {:induction false} LoadKeepsPairing(stored: seq<Message>)
    requires WellPaired(stored)
    ensures WellPaired(Load(stored)) && Led(Load(stored))
    ensures Closed(stored) ==> Closed(Load(stored))
  {
    SanitizeKeepsPairing(multiset{}, stored);
    TrimLeadKeepsPairing(multiset{}, Sanitize(stored));
    WrapKeepsPairing(multiset{}, TrimLead(Sanitize(stored)));
    var _ := TrimLeadIsSuffix(Sanitize(stored));
    WrapKeeps(TrimLead(Sanitize(stored)));
  }

  // ----- No empty message, and a second load changes nothing -----

  predicate NonEmpty(m: Message) {
    m.Turn? ==> m.content != []
  }

  /** A message on which every pass is the identity. */
  predicate Clean(m: Message) {
    m.Turn? ==>
      && m.content != []
      && !AnyCorrupt(m.content)
      && StripBlocks(m.content) == m.content
      && (DropUnusable(m.content) == m.content || DropUnusable(m.content) == [])
  }

  lemma {:induction false} KeepCleanHasNoCorrupt(bs: seq<Block>, orphaned: set<string>)
    ensures !AnyCorrupt(KeepClean(bs, orphaned))
  {
    KeepCleanMembers(bs, orphaned);
    var kept := KeepClean(bs, orphaned);
    forall i | 0 <= i < |kept| ensures !IsCorrupt(kept[i]) {
      assert kept[i] in kept;
    }
  }

  lemma {:induction false} StripBlocksPointwise(bs: seq<Block>)
    ensures |StripBlocks(bs)| == |bs|
    ensures forall i :: 0 <= i < |bs| ==> StripBlocks(bs)[i] == StripBlock(bs[i])
  {
    if bs != [] {
      StripBlocksPointwise(bs[1..]);
    }
  }

  lemma {:induction false} DropUnusablePicks(bs: seq<Block>)
    ensures forall i :: 0 <= i < |DropUnusable(bs)| ==> DropUnusable(bs)[i] in bs
    ensures DropUnusable(DropUnusable(bs)) == DropUnusable(bs)
  {
    if bs != [] {
      DropUnusablePicks(bs[1..]);
      var kept, rest := DropUnusable(bs), DropUnusable(bs[1..]);
      if Unusable(bs[0]) {
        assert kept == rest;
      } else {
        assert kept[1..] == rest;
        assert forall i :: 1 <= i < |kept| ==> kept[i] == rest[i - 1];
      }
    }
  }

  lemma {:induction false} StripBlocksTwice(bs: seq<Block>)
    ensures StripBlocks(StripBlocks(bs)) == StripBlocks(bs)
    ensures AnyCorrupt(StripBlocks(bs)) == AnyCorrupt(bs)
  {
    var cs := StripBlocks(bs);
    StripBlocksPointwise(bs);
    StripBlocksPointwise(cs);
    assert forall i :: 0 <= i < |bs| ==> IsCorrupt(cs[i]) == IsCorrupt(bs[i]);
  }

  /** Dropping blocks keeps the effect of the earlier passes. */
  lemma {:induction false} DropKeepsStripped(cs: seq<Block>)
    requires StripBlocks(cs) == cs && !AnyCorrupt(cs)
    ensures StripBlocks(DropUnusable(cs)) == DropUnusable(cs) && !AnyCorrupt(DropUnusable(cs))
  {
    var ds := DropUnusable(cs);
    DropUnusablePicks(cs);
    StripBlocksPointwise(cs);
    StripBlocksPointwise(ds);
    forall i | 0 <= i < |ds| ensures StripBlock(ds[i]) == ds[i] && !IsCorrupt(ds[i]) {
      var j :| 0 <= j < |cs| && cs[j] == ds[i];
      assert StripBlocks(cs)[j] == StripBlock(cs[j]);
    }
  }

  lemma {:induction false} SanitizedIsClean(m: Message)
    requires SanitizeMessage(m).Some?
    ensures Clean(SanitizeMessage(m).value)
  {
    if m.Turn? {
      KeepCleanHasNoCorrupt(m.content, OrphanedCallIds(m.content));
      var bs := StripCorrupt(m).value.content;
      assert bs != [] && !AnyCorrupt(bs);
      StripBlocksPointwise(bs);
      StripBlocksTwice(bs);
      DropUnusablePicks(StripBlocks(bs));
      DropKeepsStripped(StripBlocks(bs));
    }
  }

  lemma {:induction false} CleanIsFixed(m: Message)
    requires Clean(m)
    ensures SanitizeMessage(m) == Some(m)
  {
  }

  lemma {:induction false} SanitizeIsClean(h: seq<Message>)
    ensures forall m | m in Sanitize(h) :: Clean(m)
  {
    if h != [] {
      SanitizeIsClean(h[1..]);
      if SanitizeMessage(h[0]).Some? {
        SanitizedIsClean(h[0]);
      }
    }
  }

  lemma {:induction false} SanitizeFixes(h: seq<Message>)
    requires forall i :: 0 <= i < |h| ==> Clean(h[i])
    ensures Sanitize(h) == h
  {
    if h != [] {
      SanitizeFixes(h[1..]);
      CleanIsFixed(h[0]);
    }
  }

  lemma {:induction false} WrapTwice(h: seq<Message>)
    ensures Wrap(Wrap(h)) == Wrap(h)
  {
    if h != [] {
      WrapTwice(h[1..]);
      assert Wrap(h)[1..] == Wrap(h[1..]);
    }
  }

  /** Every surviving message is clean: non-empty, no corrupt result, nothing left to strip. */
  lemma {:induction false} LoadIsClean(stored: seq<Message>)
    ensures forall i :: 0 <= i < |Load(stored)| ==> Clean(Load(stored)[i]) && NonEmpty(Load(stored)[i])
  {
    var s := Sanitize(stored);
    SanitizeIsClean(stored);
    var cut := TrimLeadIsSuffix(s);
    WrapKeeps(s[cut..]);
    forall i | 0 <= i < |Load(stored)| ensures Clean(Load(stored)[i]) {
      assert s[cut..][i] in s;
    }
  }

  /** Loading what a load returned changes nothing. */
  lemma {:induction false} LoadIsIdempotent(stored: seq<Message>)
    ensures Load(Load(stored)) == Load(stored)
  {
    var h := Load(stored);
    LoadIsClean(stored);
    SanitizeFixes(h);
    var cut := TrimLeadIsSuffix(Sanitize(stored));
    WrapKeeps(TrimLead(Sanitize(stored)));
    assert Led(h);
    WrapTwice(TrimLead(Sanitize(stored)));
  }

  // ----- Server-side calls keep their results -----

  predicate HasResult(bs: seq<Block>, id: string) {
    ServerResult(id, true) in bs || ServerResult(id, false) in bs
  }

  /** Every server-side call of the message has a result in it. */
  predicate ServerPaired(m: Message) {
    forall b | b in Blocks(m) && b.ServerCall? :: HasResult(Blocks(m), b.id)
  }

  /** A result that survives for the call, or a corrupt one that takes the call with it: only a corrupt
      result with an id is recorded as orphaning its call. */
  predicate KeepsOrDropsCall(bs: seq<Block>, id: string) {
    ServerResult(id, false) in bs || (id != "" && ServerResult(id, true) in bs)
  }

  predicate CallsAccountedFor(m: Message) {
    forall b | b in Blocks(m) && b.ServerCall? :: KeepsOrDropsCall(Blocks(m), b.id)
  }

  lemma {:induction false} KeepCleanMembers(bs: seq<Block>, orphaned: set<string>)
    ensures forall b: Block :: b in KeepClean(bs, orphaned) <==> b in bs && KeepBlock(b, orphaned)
  {
    if bs != [] {
      KeepCleanMembers(bs[1..], orphaned);
      assert bs == [bs[0]] + bs[1..];
    }
  }

  lemma {:induction false} DropUnusableMembers(bs: seq<Block>)
    ensures forall b: Block :: b in DropUnusable(bs) <==> b in bs && !Unusable(b)
  {
    if bs != [] {
      DropUnusableMembers(bs[1..]);
      assert bs == [bs[0]] + bs[1..];
    }
  }

  lemma {:induction false} StripBlocksMembers(bs: seq<Block>)
    ensures forall b: Block | b.ServerResult? :: b in StripBlocks(bs) <==> b in bs
    ensures forall b: Block | b in StripBlocks(bs) && b.ServerCall? ::
              ServerCall(b.id, true) in bs || ServerCall(b.id, false) in bs
  {
    StripBlocksPointwise(bs);
    forall b: Block | b in bs && b.ServerResult? ensures b in StripBlocks(bs) {
      var i :| 0 <= i < |bs| && bs[i] == b;
      assert StripBlocks(bs)[i] == b;
    }
    forall b: Block | b in StripBlocks(bs)
      ensures b.ServerResult? ==> b in bs
      ensures b.ServerCall? ==> ServerCall(b.id, true) in bs || ServerCall(b.id, false) in bs
    {
      var i :| 0 <= i < |bs| && StripBlocks(bs)[i] == b;
      assert bs[i] in bs && b == StripBlock(bs[i]);
    }
  }

  lemma {:induction false} OrphanedMeaning(bs: seq<Block>, id: string)
    ensures id in OrphanedCallIds(bs) <==> id != "" && ServerResult(id, true) in bs
  {
    if id != "" && ServerResult(id, true) in bs {
      var i :| 0 <= i < |bs| && bs[i] == ServerResult(id, true);
    }
  }

  lemma {:induction false} CorruptIsSeen(bs: seq<Block>, id: string)
    requires ServerResult(id, true) in bs
    ensures AnyCorrupt(bs)
  {
    var i :| 0 <= i < |bs| && bs[i] == ServerResult(id, true);
    assert IsCorrupt(bs[i]);
  }

  /** After the first pass every call left has its result, exactly if every call stored had a usable result
      or a corrupt one under its own, non-empty id. */
  lemma {:induction false} StripCorruptKeepsServerPairs(m: Message)
    requires StripCorrupt(m).Some?
    ensures ServerPaired(StripCorrupt(m).value) <==> CallsAccountedFor(m)
  {
    if m.Turn? {
      var bs := m.content;
      if AnyCorrupt(bs) {
        var kept := KeepClean(bs, OrphanedCallIds(bs));
        KeepCleanMembers(bs, OrphanedCallIds(bs));
        forall b | b in bs && b.ServerCall?
          ensures KeepsOrDropsCall(bs, b.id) <==> (b in kept ==> HasResult(kept, b.id))
        {
          OrphanedMeaning(bs, b.id);
        }
      } else {
        forall b | b in bs && b.ServerCall? ensures KeepsOrDropsCall(bs, b.id) <==> HasResult(bs, b.id) {
          if ServerResult(b.id, true) in bs {
            CorruptIsSeen(bs, b.id);
          }
        }
      }
    }
  }

  /** First witness: a call and its corrupt result, both without an id, and some text. */
  lemma {:induction false} AnonymousCallIsLeftBehind()
    ensures LeftBehind(ServerCall("", false))
  {
    LeavesCallBehind("");
  }

  /** Second witness: a call with an id whose corrupt result has lost it. */
  lemma {:induction false} CallWithLostIdIsLeftBehind()
    ensures LeftBehind(ServerCall("s", false))
  {
    LeavesCallBehind("s");
  }

  /** The message of the call, a corrupt result with an empty id, and some text keeps the call alone. */
  predicate LeftBehind(call: Block) {
    var m := Turn(ASSISTANT, [call, ServerResult("", true), Text("ok", "", false)], false);
    StripCorrupt(m).Some? && call in StripCorrupt(m).value.content && !ServerPaired(StripCorrupt(m).value)
  }

  lemma {:induction false} LeavesCallBehind(id: string)
    ensures LeftBehind(ServerCall(id, false))
  {
    var call := ServerCall(id, false);
    var bs := [call, ServerResult("", true), Text("ok", "", false)];
    assert bs[0] in bs && bs[1] in bs && bs[2] in bs;
    CorruptIsSeen(bs, "");
    OrphanedMeaning(bs, id);
    KeepCleanMembers(bs, OrphanedCallIds(bs));
    assert call in KeepClean(bs, OrphanedCallIds(bs));
    assert !KeepsOrDropsCall(bs, id);
    StripCorruptKeepsServerPairs(Turn(ASSISTANT, bs, false));
  }

  /** The later passes leave calls and results together: the condition is the same for all of them. */
  lemma {:induction false} SanitizeKeepsServerPairs(m: Message)
    requires SanitizeMessage(m).Some?
    ensures ServerPaired(SanitizeMessage(m).value) <==> CallsAccountedFor(m)
  {
    StripCorruptKeepsServerPairs(m);
    if m.Turn? {
      LaterPassesKeepServer(StripCorrupt(m).value);
    }
  }

  lemma {:induction false} LaterPassesKeepServer(m: Message)
    requires m.Turn?
    ensures ServerPaired(StripThinking(StripCitations(m))) <==> ServerPaired(m)
  {
    var bs := m.content;
    var cs := Blocks(StripThinking(StripCitations(m)));
    StripBlocksMembers(bs);
    DropUnusableMembers(StripBlocks(bs));
    forall id ensures HasResult(cs, id) <==> HasResult(bs, id) {
    }
    forall b | b in bs && b.ServerCall? ensures ServerCall(b.id, false) in cs {
      StripsToBareCall(bs, b);
    }
  }

  lemma {:induction false} StripsToBareCall(bs: seq<Block>, b: Block)
    requires b in bs && b.ServerCall?
    ensures ServerCall(b.id, false) in StripBlocks(bs)
  {
    StripBlocksPointwise(bs);
    var i :| 0 <= i < |bs| && bs[i] == b;
    assert StripBlocks(bs)[i] == ServerCall(b.id, false);
  }

  lemma {:induction false} SanitizedComeFrom(h: seq<Message>, n: Message)
    requires n in Sanitize(h)
    ensures exists m :: m in h && SanitizeMessage(m) == Some(n)
  {
    if SanitizeMessage(h[0]) != Some(n) {
      SanitizedComeFrom(h[1..], n);
    }
  }

  /** Each loaded message is what the passes make of a stored one, and keeps calls and results together
      exactly if that one accounts for its calls. */
  lemma {:induction false} LoadedCalls(stored: seq<Message>, i: nat) returns (m: Message)
    requires i < |Load(stored)|
    ensures m in stored && SanitizeMessage(m).Some? && Blocks(Load(stored)[i]) == Blocks(SanitizeMessage(m).value)
    ensures ServerPaired(Load(stored)[i]) <==> CallsAccountedFor(m)
  {
    var s := Sanitize(stored);
    var cut := TrimLeadIsSuffix(s);
    WrapKeeps(s[cut..]);
    var n := s[cut..][i];
    assert n in s;
    SanitizedComeFrom(stored, n);
    m :| m in stored && SanitizeMessage(m) == Some(n);
    SanitizeKeepsServerPairs(m);
  }

  /** So a whole load leaves no call without its result. */
  lemma {:induction false} LoadKeepsServerPairs(stored: seq<Message>)
    requires forall m | m in stored :: CallsAccountedFor(m)
    ensures forall i :: 0 <= i < |Load(stored)| ==> ServerPaired(Load(stored)[i])
  {
    forall i | 0 <= i < |Load(stored)| ensures ServerPaired(Load(stored)[i]) {
      var m := LoadedCalls(stored, i);
    }
  }
}
