/** What a loaded history holds of the stored one: which messages, which blocks, and what of them
    (internal/services/memory.go: readMemoryFile and its passes). */
module LoadContent {
  import opened Filters
  import opened MemoryLoad
  import opened Strings
  import opened Transcript

  // ----- Blocks -----

  predicate HasInk(s: string) {
    exists i :: 0 <= i < |s| && !IsSpace(s[i])
  }

  /** A thinking block is usable with a signature and a thought, a redacted one with its data. */
  predicate Usable(b: Block) {
    match b
    case Thinking(thinking, signature) => HasInk(thinking) && HasInk(signature)
    case RedactedThinking(data) => HasInk(data)
    case _ => true
  }

  /** Neither a corrupt server result nor a call whose result is corrupt. */
  predicate Sound(bs: seq<Block>, b: Block) {
    match b
    case ServerResult(_, corrupt) => !corrupt
    case ServerCall(id, _) => id == "" || ServerResult(id, true) !in bs
    case _ => true
  }

  /** Unusable thinking stays only where nothing else of the message would. */
  predicate Stays(bs: seq<Block>, b: Block) {
    Sound(bs, b) && (Usable(b) || forall c | c in bs :: Sound(bs, c) ==> !Usable(c))
  }

  function SoundIn(bs: seq<Block>): Block -> bool {
    b => Sound(bs, b)
  }

  function StaysIn(bs: seq<Block>): Block -> bool {
    b => Stays(bs, b)
  }

  /** The block is sent as stored, without citations and keys the API does not accept. */
  predicate SentAs(b: Block, c: Block) {
    match b
    case Text(text, from, _) => c == Text(text, from, false)
    case ServerCall(id, _) => c == ServerCall(id, false)
    case _ => c == b
  }

  lemma {:induction false} UsableIsInk(b: Block)
    ensures Usable(b) <==> !Unusable(b)
  {
  }

  lemma {:induction false} KeepCleanIsFilter(bs: seq<Block>, all: seq<Block>)
    ensures KeepClean(bs, OrphanedCallIds(all)) == Filter(bs, SoundIn(all))
  {
    if bs != [] {
      KeepCleanIsFilter(bs[1..], all);
      if bs[0].ServerCall? {
        OrphanedMeaning(all, bs[0].id);
      }
    }
  }

  lemma {:induction false} UncorruptIsSound(bs: seq<Block>)
    requires !AnyCorrupt(bs)
    ensures Filter(bs, SoundIn(bs)) == bs
  {
    forall i | 0 <= i < |bs| ensures Sound(bs, bs[i]) {
      if bs[i].ServerCall? && ServerResult(bs[i].id, true) in bs {
        CorruptIsSeen(bs, bs[i].id);
      }
      assert bs[i].ServerResult? && bs[i].corrupt ==> IsCorrupt(bs[i]);
    }
    FilterEmpty(bs, SoundIn(bs));
  }

  lemma {:induction false} DropIsFilter(bs: seq<Block>)
    ensures DropUnusable(StripBlocks(bs)) == StripBlocks(Filter(bs, Usable))
  {
    if bs != [] {
      DropIsFilter(bs[1..]);
      UsableIsInk(bs[0]);
      UsableIsInk(StripBlock(bs[0]));
      var rest := Filter(bs[1..], Usable);
      assert StripBlocks(bs)[1..] == StripBlocks(bs[1..]);
      if Usable(bs[0]) {
        assert ([bs[0]] + rest)[1..] == rest;
      } else {
        assert [] + rest == rest;
      }
    }
  }

  /** The content of a sanitized message is that of its staying blocks, stripped. */
  lemma {:induction false} SanitizedContent(m: Message)
    requires m.Turn?
    ensures var bs := m.content;
            && (SanitizeMessage(m).None? <==> Filter(bs, SoundIn(bs)) == [])
            && (SanitizeMessage(m).Some? ==>
                  SanitizeMessage(m).value == m.(content := StripBlocks(Filter(bs, StaysIn(bs)))))
  {
    var bs := m.content;
    var sound := Filter(bs, SoundIn(bs));
    KeepCleanIsFilter(bs, bs);
    if !AnyCorrupt(bs) {
      UncorruptIsSound(bs);
    }
    assert StripCorrupt(m) == if sound == [] then None else Some(m.(content := sound));
    if sound != [] {
      LaterPasses(m, sound);
      StayingBlocks(bs, sound, Filter(sound, Usable));
    }
  }

  lemma {:induction false} LaterPasses(m: Message, sound: seq<Block>)
    requires m.Turn? && sound != []
    ensures var usable := Filter(sound, Usable);
            StripThinking(StripCitations(m.(content := sound)))
            == m.(content := StripBlocks(if usable == [] then sound else usable))
  {
    DropIsFilter(sound);
    StripBlocksPointwise(Filter(sound, Usable));
    hide Usable, DropUnusable;
  }

  lemma {:induction false} StayingBlocks(bs: seq<Block>, sound: seq<Block>, usable: seq<Block>)
    requires sound == Filter(bs, SoundIn(bs)) && usable == Filter(sound, Usable)
    ensures Filter(bs, StaysIn(bs)) == if usable == [] then sound else usable
  {
    var both := Both(SoundIn(bs), Usable);
    FilterTwice(bs, SoundIn(bs), Usable);
    FilterEmpty(bs, both);
    if usable == [] {
      forall i | 0 <= i < |bs| ensures Stays(bs, bs[i]) == SoundIn(bs)(bs[i]) {
        assert !both(bs[i]);
        assert forall c | c in bs :: !both(c);
      }
      FilterSame(bs, StaysIn(bs), SoundIn(bs));
    } else {
      var i :| 0 <= i < |bs| && both(bs[i]);
      assert bs[i] in bs;
      FilterSame(bs, StaysIn(bs), both);
    }
  }

  /** What the passes make of a message: nothing exactly if no block of it is sound; otherwise the same message
      with exactly its staying blocks, in order, each sent as stored. */
  lemma {:induction false} MessageMeaning(m: Message) returns (at: seq<nat>)
    requires m.Turn?
    ensures var bs := m.content;
            && (SanitizeMessage(m).None? <==> forall i :: 0 <= i < |bs| ==> !Sound(bs, bs[i]))
            && (SanitizeMessage(m).Some? ==>
                  var n := SanitizeMessage(m).value;
                  && n == m.(content := n.content) && |n.content| == |at|
                  && Positions(bs, at, StaysIn(bs))
                  && forall k :: 0 <= k < |at| ==> SentAs(bs[at[k]], n.content[k]))
  {
    var bs := m.content;
    SanitizedContent(m);
    FilterEmpty(bs, SoundIn(bs));
    assert forall i :: 0 <= i < |bs| ==> SoundIn(bs)(bs[i]) == Sound(bs, bs[i]);
    at := FilterAt(bs, StaysIn(bs));
    StrippedAreSent(Filter(bs, StaysIn(bs)));
    hide *;
  }

  lemma {:induction false} StrippedAreSent(bs: seq<Block>)
    ensures |StripBlocks(bs)| == |bs| && forall k :: 0 <= k < |bs| ==> SentAs(bs[k], StripBlocks(bs)[k])
  {
    StripBlocksPointwise(bs);
  }

  // ----- A whole history -----

  /** Something of the message is left. */
  predicate Survives(m: Message) {
    m.Unreadable? || exists i :: 0 <= i < |m.content| && Sound(m.content, m.content[i])
  }

  /** A user turn without tool results. */
  predicate CanLead(m: Message) {
    m.Turn? && m.role == "user" && forall i :: 0 <= i < |m.content| ==> !m.content[i].ToolResult?
  }

  /** The blocks at `at` are those sent of the message. */
  ghost predicate SentBlocks(bs: seq<Block>, at: seq<nat>, cs: seq<Block>) {
    && |cs| == |at| && Positions(bs, at, StaysIn(bs))
    && forall k :: 0 <= k < |at| ==> SentAs(bs[at[k]], cs[k])
  }

  /** `n` is the message as it is loaded. */
  ghost predicate LoadedFrom(m: Message, n: Message) {
    if m.Unreadable? then n == m
    else n.Turn? && n == Turn(m.role, n.content, true) && exists at :: SentBlocks(m.content, at, n.content)
  }

  lemma {:induction false} ResultsAreBlocks(bs: seq<Block>)
    ensures ResultIds(bs) == [] <==> forall i :: 0 <= i < |bs| ==> !bs[i].ToolResult?
  {
    if bs != [] {
      ResultsAreBlocks(bs[1..]);
      if forall i :: 0 <= i < |bs| ==> !bs[i].ToolResult? {
        assert forall i :: 0 <= i < |bs[1..]| ==> bs[1..][i] == bs[i + 1];
      } else if !bs[0].ToolResult? {
        var i :| 0 <= i < |bs| && bs[i].ToolResult?;
        assert bs[1..][i - 1] == bs[i];
      }
    }
  }

  lemma {:induction false} LeadIsSafe(m: Message)
    ensures CanLead(m) <==> SafeCut(m)
  {
    if m.Turn? {
      ResultsAreBlocks(m.content);
      var ids := ResultIds(m.content);
      assert ids != [] ==> ids[0] in multiset(ids);
    }
  }

  function Wrapped(m: Message): Message {
    if m.Turn? then m.(loaded := true) else m
  }

  /** Sanitizing keeps what survives, and whether it can lead. */
  lemma {:induction false} OneSanitized(m: Message)
    ensures SanitizeMessage(m).Some? <==> Survives(m)
    ensures SanitizeMessage(m).Some? ==>
              var n := SanitizeMessage(m).value;
              && (SafeCut(n) <==> CanLead(m))
              && LoadedFrom(m, Wrapped(n))
  {
    LeadIsSafe(m);
    if m.Turn? {
      var at := MessageMeaning(m);
      SanitizeStep([m]);
      if SanitizeMessage(m).Some? {
        assert SentBlocks(m.content, at, SanitizeMessage(m).value.content);
      }
    }
  }

  ghost predicate Sanitizes(h: seq<Message>, at: seq<nat>, s: seq<Message>) {
    Positions(h, at, Survives) && SanitizesEach(h, at, s)
  }

  predicate SanitizesEach(h: seq<Message>, at: seq<nat>, s: seq<Message>) {
    |s| == |at| && forall k :: 0 <= k < |at| ==> at[k] < |h| && SanitizeMessage(h[at[k]]) == Some(s[k])
  }

  lemma {:induction false} EachShifted(h: seq<Message>, at: seq<nat>, s: seq<Message>)
    requires h != [] && SanitizesEach(h[1..], at, s)
    ensures SanitizesEach(h, Shift(at), s)
    ensures SanitizeMessage(h[0]).Some? ==> SanitizesEach(h, [0] + Shift(at), [SanitizeMessage(h[0]).value] + s)
  {
    hide SanitizeMessage;
    var shifted := Shift(at);
    assert forall k :: 0 <= k < |at| ==> h[shifted[k]] == h[1..][at[k]];
  }

  lemma {:induction false} SanitizesCons(h: seq<Message>, at: seq<nat>, s: seq<Message>)
    requires h != [] && Sanitizes(h[1..], at, s)
    ensures SanitizeMessage(h[0]).None? ==> Sanitizes(h, Shift(at), s)
    ensures SanitizeMessage(h[0]).Some? ==> Sanitizes(h, [0] + Shift(at), [SanitizeMessage(h[0]).value] + s)
  {
    OneSanitized(h[0]);
    PositionsCons(h, at, Survives);
    EachShifted(h, at, s);
    hide SanitizeMessage, Survives, LoadedFrom, CanLead, SafeCut, Positions, SanitizesEach, Shift;
    assert [] + Shift(at) == Shift(at);
  }

  lemma {:induction false} SanitizedFrom(h: seq<Message>) returns (at: seq<nat>)
    ensures Sanitizes(h, at, Sanitize(h))
  {
    hide SanitizeMessage, Sanitizes;
    if h == [] {
      NoneSanitized();
      return [];
    }
    var rest := SanitizedFrom(h[1..]);
    SanitizesCons(h, rest, Sanitize(h[1..]));
    at := (if SanitizeMessage(h[0]).Some? then [0] else []) + Shift(rest);
    assert [] + Shift(rest) == Shift(rest);
    assert [] + Sanitize(h[1..]) == Sanitize(h[1..]);
  }

  lemma {:induction false} NoneSanitized()
    ensures Sanitizes([], [], [])
  {
  }

  /** Something before or at i survives and can lead. */
  predicate LedBy(h: seq<Message>, i: nat) {
    exists j :: 0 <= j <= i && j < |h| && Survives(h[j]) && CanLead(h[j])
  }

  /** A loaded history has, in order, exactly the stored messages that survive, from the first one on that can
      lead; each is loaded from its stored one with exactly the blocks that stay. */
  lemma {:induction false} LoadMeaning(stored: seq<Message>) returns (at: seq<nat>)
    ensures |Load(stored)| == |at|
    ensures forall k, l :: 0 <= k < l < |at| ==> at[k] < at[l]
    ensures forall k :: 0 <= k < |at| ==>
              at[k] < |stored| && Survives(stored[at[k]]) && LoadedFrom(stored[at[k]], Load(stored)[k])
    ensures forall i :: 0 <= i < |stored| && Survives(stored[i]) ==> (i in at <==> LedBy(stored, i))
  {
    var all := SanitizedFrom(stored);
    var s := Sanitize(stored);
    var cut := TrimLeadIsSuffix(s);
    assert Led(s[cut..]);
    assert Load(stored) == Wrap(s[cut..]);
    at := all[cut..];
    LoadedAt(stored, all, s, cut);
    hide *;
    forall i | 0 <= i < |stored| && Survives(stored[i]) ensures i in at <==> LedBy(stored, i) {
      LeadDecides(stored, all, s, cut, i);
    }
  }

  lemma {:induction false} LoadedAt(stored: seq<Message>, all: seq<nat>, s: seq<Message>, cut: nat)
    requires Sanitizes(stored, all, s) && cut <= |s|
    ensures |all| == |s|
    ensures var at, h := all[cut..], Wrap(s[cut..]);
            && |h| == |at|
            && (forall k, l :: 0 <= k < l < |at| ==> at[k] < at[l])
            && (forall k :: 0 <= k < |at| ==>
                  at[k] < |stored| && Survives(stored[at[k]]) && LoadedFrom(stored[at[k]], h[k]))
  {
    hide SanitizeMessage, Survives, CanLead, SafeCut, LoadedFrom;
    var at, h := all[cut..], Wrap(s[cut..]);
    WrapIsWrapped(s[cut..]);
    forall k | 0 <= k < |at|
      ensures at[k] < |stored| && Survives(stored[at[k]]) && LoadedFrom(stored[at[k]], h[k])
    {
      assert at[k] == all[cut + k] && h[k] == Wrapped(s[cut + k]);
      OneSanitized(stored[all[cut + k]]);
    }
  }

  lemma {:induction false} WrapIsWrapped(h: seq<Message>)
    ensures |Wrap(h)| == |h| && forall k :: 0 <= k < |h| ==> Wrap(h)[k] == Wrapped(h[k])
  {
    if h != [] {
      WrapIsWrapped(h[1..]);
    }
  }

  lemma {:induction false} LeadDecides(stored: seq<Message>, all: seq<nat>, s: seq<Message>, cut: nat, i: nat)
    requires Sanitizes(stored, all, s) && cut <= |s|
    requires (forall k :: 0 <= k < cut ==> !SafeCut(s[k])) && Led(s[cut..])
    requires i < |stored| && Survives(stored[i])
    ensures i in all[cut..] <==> LedBy(stored, i)
  {
    hide SanitizeMessage, Survives, CanLead, SafeCut, LoadedFrom;
    var p :| 0 <= p < |all| && all[p] == i;
    if p >= cut {
      assert all[cut..][p - cut] == i;
      OneSanitized(stored[all[cut]]);
      assert all[cut] <= i;
    } else {
      forall j | 0 <= j <= i && Survives(stored[j]) ensures !CanLead(stored[j]) {
        var q :| 0 <= q < |all| && all[q] == j;
        assert q <= p;
        OneSanitized(stored[j]);
      }
    }
  }
}
