/** Cutting a transcript down to the character budget (internal/agents/agent.go: findAnchor,
    trimHistory) and dropping attachment payloads before a save (StripAttachmentBlobs). */
module Trimming {
  import opened Compression
  import opened Sizes
  import opened Strings
  import opened Transcript

  // ----- The anchor: the newest message written by a human -----

  /** The sender named by the first text block. */
  function FromOf(bs: seq<Block>): string {
    if bs == [] then "" else if bs[0].Text? then bs[0].from else FromOf(bs[1..])
  }

  predicate IsHuman(m: Message, agents: set<string>) {
    SafeCut(m) && FromOf(Blocks(m)) != "" && ToLower(FromOf(Blocks(m))) !in agents
  }

  function AnchorBelow(h: seq<Message>, agents: set<string>, n: nat): (i: int)
    requires n <= |h|
    ensures -1 <= i < n
    ensures i >= 0 ==> IsHuman(h[i], agents)
    ensures forall j :: i < j < n ==> !IsHuman(h[j], agents)
  {
    if n == 0 then -1 else if IsHuman(h[n - 1], agents) then n - 1 else AnchorBelow(h, agents, n - 1)
  }

  /** -1 when there is no human message or the list of agents is not known. */
  function Anchor(h: seq<Message>, agents: set<string>): (i: int)
    ensures -1 <= i < |h|
    ensures i >= 0 ==> SafeCut(h[i])
  {
    if agents == {} then -1 else AnchorBelow(h, agents, |h|)
  }

  method FindAnchor(history: seq<Message>, agents: set<string>) returns (anchor: int)
    ensures anchor == Anchor(history, agents)
  {
    if |agents| == 0 {
      return -1;
    }
    var i := |history|;
    while i > 0
      invariant 0 <= i <= |history|
      invariant AnchorBelow(history, agents, i) == AnchorBelow(history, agents, |history|)
    {
      i := i - 1;
      if !SafeCut(history[i]) {
        continue;
      }
      var from := FromOf(Blocks(history[i]));
      if from == "" {
        continue;
      }
      if ToLower(from) !in agents {
        return i;
      }
    }
    return -1;
  }

  // ----- Cutpoints -----

  predicate Ascending(s: seq<nat>) {
    forall k, l :: 0 <= k < l < |s| ==> s[k] < s[l]
  }

  lemma {:induction false} AscendingCons(c: nat, s: seq<nat>)
    requires Ascending(s) && forall d :: d in s ==> c < d
    ensures Ascending([c] + s)
  {
    var t := [c] + s;
    forall k, l | 0 <= k < l < |t| ensures t[k] < t[l] {
      assert t[l] == s[l - 1] && s[l - 1] in s;
    }
  }

  lemma {:induction false} AscendingTail(s: seq<nat>)
    requires Ascending(s) && s != []
    ensures Ascending(s[1..])
    ensures forall d :: d in s ==> d == s[0] || (s[0] < d && d in s[1..])
  {
    forall d | d in s ensures d == s[0] || (s[0] < d && d in s[1..]) {
      var k :| 0 <= k < |s| && s[k] == d;
      assert k > 0 ==> s[1..][k - 1] == d;
    }
  }

  function CutpointsFrom(h: seq<Message>, i: nat): seq<nat>
    requires i <= |h|
    decreases |h| - i
  {
    if i == |h| then []
    else (if SafeCut(h[i]) then [i] else []) + CutpointsFrom(h, i + 1)
  }

  lemma {:induction false} CutpointsMeaning(h: seq<Message>, i: nat)
    requires i <= |h|
    ensures Ascending(CutpointsFrom(h, i))
    ensures forall c :: c in CutpointsFrom(h, i) <==> i <= c < |h| && SafeCut(h[c])
    decreases |h| - i
  {
    hide SafeCut;
    if i < |h| {
      CutpointsMeaning(h, i + 1);
      if SafeCut(h[i]) {
        AscendingCons(i, CutpointsFrom(h, i + 1));
      } else {
        assert CutpointsFrom(h, i) == CutpointsFrom(h, i + 1);
      }
    }
  }

  method CollectCutpoints(h: seq<Message>) returns (cutpoints: seq<nat>)
    ensures cutpoints == CutpointsFrom(h, 0)
  {
    cutpoints := [];
    for i := 0 to |h|
      invariant cutpoints + CutpointsFrom(h, i) == CutpointsFrom(h, 0)
    {
      if SafeCut(h[i]) {
        cutpoints := cutpoints + [i];
      }
    }
    assert cutpoints + [] == cutpoints;
  }

  function NotBefore(cuts: seq<nat>, anchor: int): seq<nat> {
    if cuts == [] then []
    else (if cuts[0] >= anchor then [cuts[0]] else []) + NotBefore(cuts[1..], anchor)
  }

  lemma {:induction false} NotBeforeMeaning(cuts: seq<nat>, anchor: int)
    requires Ascending(cuts)
    ensures Ascending(NotBefore(cuts, anchor))
    ensures forall c :: c in NotBefore(cuts, anchor) <==> c in cuts && c >= anchor
  {
    if cuts != [] {
      AscendingTail(cuts);
      NotBeforeMeaning(cuts[1..], anchor);
      if cuts[0] >= anchor {
        AscendingCons(cuts[0], NotBefore(cuts[1..], anchor));
      } else {
        assert NotBefore(cuts, anchor) == NotBefore(cuts[1..], anchor);
      }
    }
  }

  method DropBefore(cutpoints: seq<nat>, anchor: int) returns (filtered: seq<nat>)
    ensures filtered == NotBefore(cutpoints, anchor)
  {
    filtered := [];
    for k := 0 to |cutpoints|
      invariant filtered + NotBefore(cutpoints[k..], anchor) == NotBefore(cutpoints, anchor)
    {
      assert cutpoints[k..][1..] == cutpoints[k + 1..];
      if cutpoints[k] >= anchor {
        filtered := filtered + [cutpoints[k]];
      }
    }
    assert filtered + [] == filtered;
  }

  function Candidates(h: seq<Message>, agents: set<string>): seq<nat> {
    var cuts, anchor := CutpointsFrom(h, 0), Anchor(h, agents);
    if anchor >= 0 && NotBefore(cuts, anchor) != [] then NotBefore(cuts, anchor) else cuts
  }

  /** The candidates are all safe cutpoints from `start` on, oldest first; `start` is the anchor if
      there is one and the oldest safe cutpoint otherwise. */
  lemma {:induction false} CandidatesMeaning(h: seq<Message>, agents: set<string>) returns (start: nat)
    requires CutpointsFrom(h, 0) != []
    ensures Candidates(h, agents) != [] && start == Candidates(h, agents)[0]
    ensures start < |h| && SafeCut(h[start])
    ensures Anchor(h, agents) >= 0 ==> start == Anchor(h, agents)
    ensures Anchor(h, agents) < 0 ==> forall c :: 0 <= c < start ==> !SafeCut(h[c])
    ensures Ascending(Candidates(h, agents))
    ensures forall c :: c in Candidates(h, agents) <==> start <= c < |h| && SafeCut(h[c])
  {
    var cuts, anchor := CutpointsFrom(h, 0), Anchor(h, agents);
    var cands := Candidates(h, agents);
    CutpointsMeaning(h, 0);
    NotBeforeMeaning(cuts, anchor);
    assert anchor >= 0 ==> anchor in NotBefore(cuts, anchor);
    AscendingTail(cands);
    start := cands[0];
    assert start in cands;
  }

  function TailSize(h: seq<Message>, c: nat): nat {
    if c <= |h| then EffectiveSize(h[c..]) else 0
  }

  /** The first candidate whose tail fits, `fallback` when none does. */
  function FirstFitting(h: seq<Message>, candidates: seq<nat>, maxChars: int, fallback: nat): nat {
    if candidates == [] then fallback
    else if TailSize(h, candidates[0]) <= maxChars then candidates[0]
    else FirstFitting(h, candidates[1..], maxChars, fallback)
  }

  lemma {:induction false} FirstFittingMeaning(h: seq<Message>, cands: seq<nat>, maxChars: int, fallback: nat)
    requires Ascending(cands)
    ensures var c := FirstFitting(h, cands, maxChars, fallback);
            || (c == fallback && forall d :: d in cands ==> TailSize(h, d) > maxChars)
            || (c in cands && TailSize(h, c) <= maxChars &&
                forall d :: d in cands && d < c ==> TailSize(h, d) > maxChars)
  {
    if cands != [] {
      AscendingTail(cands);
      if TailSize(h, cands[0]) > maxChars {
        FirstFittingMeaning(h, cands[1..], maxChars, fallback);
      }
    }
  }

  // ----- trimHistory -----

  /** Where an oversized history with a safe cutpoint is cut. */
  function Cut(h: seq<Message>, maxChars: int, agents: set<string>): nat
    requires Candidates(h, agents) != []
  {
    FirstFitting(h, Candidates(h, agents), maxChars, Candidates(h, agents)[0])
  }

  /** The tail of the history from a cutpoint, compressed if it is still oversized. */
  function FromCut(h: seq<Message>, cut: nat, maxChars: int): seq<Message>
    requires cut <= |h|
  {
    if EffectiveSize(h[cut..]) <= maxChars then h[cut..] else Compress(h[cut..], maxChars)
  }

  function Trimmed(h: seq<Message>, maxChars: int, agents: set<string>): seq<Message> {
    if EffectiveSize(h) <= maxChars || CutpointsFrom(h, 0) == [] then h
    else
      CutIsSafe(h, maxChars, agents);
      FromCut(h, Cut(h, maxChars, agents), maxChars)
  }

  lemma {:induction false} CutIsSafe(h: seq<Message>, maxChars: int, agents: set<string>)
    requires CutpointsFrom(h, 0) != []
    ensures Candidates(h, agents) != []
    ensures Cut(h, maxChars, agents) in Candidates(h, agents)
    ensures Cut(h, maxChars, agents) < |h| && SafeCut(h[Cut(h, maxChars, agents)])
  {
    var start := CandidatesMeaning(h, agents);
    FirstFittingMeaning(h, Candidates(h, agents), maxChars, start);
    assert start in Candidates(h, agents);
  }

  method ChooseCut(history: seq<Message>, candidates: seq<nat>, maxChars: int) returns (chosen: nat)
    requires candidates != [] && forall c :: c in candidates ==> c < |history|
    ensures chosen == FirstFitting(history, candidates, maxChars, candidates[0])
  {
    chosen := candidates[0];
    for k := 0 to |candidates|
      invariant chosen == candidates[0]
      invariant FirstFitting(history, candidates[k..], maxChars, chosen) ==
                FirstFitting(history, candidates, maxChars, chosen)
    {
      assert candidates[k..][1..] == candidates[k + 1..];
      assert candidates[k] in candidates;
      var tailSize := ComputeEffectiveSize(history[candidates[k]..]);
      if tailSize <= maxChars {
        return candidates[k];
      }
    }
  }

  method TrimHistory(history: seq<Message>, maxChars: int, agents: set<string>) returns (trimmed: seq<Message>)
    ensures trimmed == Trimmed(history, maxChars, agents)
  {
    var size := ComputeEffectiveSize(history);
    if size <= maxChars {
      return history;
    }
    var cutpoints := CollectCutpoints(history);
    if |cutpoints| == 0 {
      return history;
    }
    var anchor := FindAnchor(history, agents);
    var candidates := cutpoints;
    if anchor >= 0 {
      var filtered := DropBefore(cutpoints, anchor);
      if |filtered| > 0 {
        candidates := filtered;
      }
    }
    assert candidates == Candidates(history, agents);
    var _ := CandidatesMeaning(history, agents);
    CutIsSafe(history, maxChars, agents);
    var chosen := ChooseCut(history, candidates, maxChars);
    trimmed := history[chosen..];
    var finalSize := ComputeEffectiveSize(trimmed);
    if finalSize > maxChars {
      trimmed := CompressToolResults(trimmed, maxChars);
    }
  }

  /** No later message can start a conversation. */
  predicate IsNewestCut(h: seq<Message>, c: nat) {
    c < |h| && SafeCut(h[c]) && forall d :: c < d < |h| ==> !SafeCut(h[d])
  }

  /** An oversized history with a safe cutpoint is cut at the oldest safe cutpoint from `start` on
      whose tail fits; when none fits it is cut at `start` and compressed.  `start` is the newest human
      message, or the oldest safe cutpoint when there is none. */
  lemma {:induction false} TrimMeaning(h: seq<Message>, maxChars: int, agents: set<string>)
    returns (start: nat, cut: nat)
    requires EffectiveSize(h) > maxChars && CutpointsFrom(h, 0) != []
    ensures Candidates(h, agents) != [] && cut == Cut(h, maxChars, agents)
    ensures start <= cut < |h| && SafeCut(h[start]) && SafeCut(h[cut])
    ensures Anchor(h, agents) >= 0 ==> start == Anchor(h, agents)
    ensures Anchor(h, agents) < 0 ==> forall c :: 0 <= c < start ==> !SafeCut(h[c])
    ensures Trimmed(h, maxChars, agents) == FromCut(h, cut, maxChars)
    ensures forall c :: start <= c < cut && SafeCut(h[c]) ==> TailSize(h, c) > maxChars
    ensures TailSize(h, cut) > maxChars ==>
              cut == start && forall c :: start <= c < |h| && SafeCut(h[c]) ==> TailSize(h, c) > maxChars
  {
    start := CandidatesMeaning(h, agents);
    CutIsSafe(h, maxChars, agents);
    FirstFittingMeaning(h, Candidates(h, agents), maxChars, start);
    cut := Cut(h, maxChars, agents);
  }

  /** Tails only shrink, so some candidate fits exactly when the newest cutpoint's tail does. */
  lemma {:induction false} FitExistsIffNewestFits(h: seq<Message>, maxChars: int, agents: set<string>, newest: nat)
    requires EffectiveSize(h) > maxChars && IsNewestCut(h, newest)
    ensures Candidates(h, agents) != []
    ensures TailSize(h, Cut(h, maxChars, agents)) <= maxChars <==> TailSize(h, newest) <= maxChars
  {
    CutpointsMeaning(h, 0);
    assert newest in CutpointsFrom(h, 0);
    var start, cut := TrimMeaning(h, maxChars, agents);
    assert cut <= newest;
    TailIsNoLarger(h, cut, newest);
  }

  /** The newest human message stays in the trimmed history exactly when its own tail fits or when not
      even the newest safe cutpoint's tail does. */
  lemma {:induction false} AnchorIsKept(h: seq<Message>, maxChars: int, agents: set<string>, newest: nat)
    requires EffectiveSize(h) > maxChars && Anchor(h, agents) >= 0 && IsNewestCut(h, newest)
    ensures Candidates(h, agents) != []
    ensures Cut(h, maxChars, agents) == Anchor(h, agents) <==>
            TailSize(h, Anchor(h, agents)) <= maxChars || TailSize(h, newest) > maxChars
  {
    FitExistsIffNewestFits(h, maxChars, agents, newest);
    CutpointsMeaning(h, 0);
    assert newest in CutpointsFrom(h, 0);
    var start, cut := TrimMeaning(h, maxChars, agents);
  }

  lemma {:induction false} LowerIsFixed(s: string)
    requires forall i :: 0 <= i < |s| ==> ToLowerChar(s[i]) == s[i]
    ensures ToLower(s) == s
  {
    if s != "" {
      LowerIsFixed(s[1..]);
    }
  }

  lemma {:induction false} TinyMessage(text: string, from: string, agents: set<string>)
    requires from != "" && forall i :: 0 <= i < |from| ==> ToLowerChar(from[i]) == from[i]
    ensures var m := Turn(USER, [Text(text, from, false)], false);
            && SafeCut(m) && MessageSize(m) == 12 + |text| && EffectiveSize([m]) == 12 + |text|
            && (IsHuman(m, agents) <==> from !in agents)
  {
    var m := Turn(USER, [Text(text, from, false)], false);
    LowerIsFixed(from);
    var b := Text(text, from, false);
    assert [b][1..] == [] && [m][1..] == [];
    assert ResultIds([b]) == [] && UseIds([b]) == [];
    assert BlocksSize([b], false) == |text|;
    assert FromOf([b]) == from;
  }

  lemma {:induction false} PairSizes(a: Message, b: Message)
    ensures EffectiveSize([b]) == MessageSize(b)
    ensures EffectiveSize([a, b]) == MessageSize(a) + MessageSize(b)
    ensures TailSize([a, b], 0) == MessageSize(a) + MessageSize(b) && TailSize([a, b], 1) == MessageSize(b)
  {
    assert [b][1..] == [] && [a, b][1..] == [b] && [a, b][0..] == [a, b];
  }

  /** A human message that does not fit, followed by an agent's message that does, is lost. */
  lemma {:induction false} LaterFitLosesAnchor(h: seq<Message>, maxChars: int, agents: set<string>)
    requires |h| == 2 && agents != {} && IsHuman(h[0], agents) && SafeCut(h[1]) && !IsHuman(h[1], agents)
    requires MessageSize(h[1]) <= maxChars < MessageSize(h[0]) + MessageSize(h[1])
    ensures Anchor(h, agents) == 0
    ensures Trimmed(h, maxChars, agents) == [h[1]]
  {
    assert h == [h[0], h[1]];
    PairSizes(h[0], h[1]);
    assert AnchorBelow(h, agents, 1) == 0;
    assert AnchorBelow(h, agents, 2) == 0;
    AnchorIsKept(h, maxChars, agents, 1);
    CutpointsMeaning(h, 0);
    assert 1 in CutpointsFrom(h, 0);
    var start, cut := TrimMeaning(h, maxChars, agents);
    assert cut == 1 && h[1..] == [h[1]];
  }

  /** The text block of a mail that has a sender, a date and nothing else. */
  function Summary(from: string): string {
    "{\"from\":\"\\u003c" + from + "\\u003e\",\"date\":\"2026-01-02T03:04:05Z\"}"
  }

  /** The comment promises never to cut above the anchor's request; two email summaries for which it is lost,
      at a limit that the second one just meets. */
  lemma {:induction false} AnchorCanBeLost() returns (human: Message, peer: Message, agents: set<string>)
    ensures human == Turn(USER, [Text(Summary("u@h"), "u@h", false)], false)
    ensures peer == Turn(USER, [Text(Summary("p@w"), "p@w", false)], false) && agents == {"p@w"}
    ensures Anchor([human, peer], agents) == 0
    ensures Trimmed([human, peer], EffectiveSize([peer]), agents) == [peer]
  {
    var a, b := Summary("u@h"), Summary("p@w");
    human := Turn(USER, [Text(a, "u@h", false)], false);
    peer := Turn(USER, [Text(b, "p@w", false)], false);
    agents := {"p@w"};
    assert "u@h"[0] != "p@w"[0];
    TinyMessage(a, "u@h", agents);
    TinyMessage(b, "p@w", agents);
    PairSizes(human, peer);
    hide *;
    LaterFitLosesAnchor([human, peer], MessageSize(peer), agents);
  }

  /** What is handed to the provider is well paired, closed if the history is, and starts with a plain
      user turn whenever the history does or something had to be cut. */
  lemma {:induction false} TrimKeepsPairing(h: seq<Message>, maxChars: int, agents: set<string>)
    requires WellPaired(h)
    ensures WellPaired(Trimmed(h, maxChars, agents))
    ensures Closed(h) ==> Closed(Trimmed(h, maxChars, agents))
    ensures Led(h) || (EffectiveSize(h) > maxChars && CutpointsFrom(h, 0) != []) ==> Led(Trimmed(h, maxChars, agents))
    ensures h != [] ==> Trimmed(h, maxChars, agents) != []
  {
    if EffectiveSize(h) > maxChars && CutpointsFrom(h, 0) != [] {
      var _, cut := TrimMeaning(h, maxChars, agents);
      var tail := h[cut..];
      PairedSuffix(h, cut);
      if EffectiveSize(tail) > maxChars {
        var _, _ := CompressMeaning(tail, maxChars);
        SameShapesKeepPairing(multiset{}, tail, Compress(tail, maxChars));
      }
    }
  }

  // ----- StripAttachmentBlobs -----

  /** The dash is the three-byte UTF-8 form of U+2014. */
  const PROCESSED := " elided from persisted history \U{E2}\U{80}\U{94} original was processed in-run]"

  const IMAGE_STUB := "[image attachment" + PROCESSED

  function PdfStub(title: string): string {
    if title == "" then "[PDF attachment" + PROCESSED else "[PDF attachment \"" + title + "\"" + PROCESSED
  }

  function StripBlob(b: Block): Block {
    match b
    case Image(Base64(_)) => Text(IMAGE_STUB, "", false)
    case Document(Base64(_), title) => Text(PdfStub(title), "", false)
    case _ => b
  }

  function StripBlobs(bs: seq<Block>): seq<Block> {
    if bs == [] then [] else [StripBlob(bs[0])] + StripBlobs(bs[1..])
  }

  function StripMessage(m: Message): Message {
    if m.Turn? && !m.loaded then m.(content := StripBlobs(m.content)) else m
  }

  function Stripped(h: seq<Message>): seq<Message> {
    if h == [] then [] else [StripMessage(h[0])] + Stripped(h[1..])
  }

  method StripContent(blocks: seq<Block>) returns (content: seq<Block>)
    ensures content == StripBlobs(blocks)
  {
    content := [];
    for j := 0 to |blocks|
      invariant StripBlobs(blocks) == content + StripBlobs(blocks[j..])
    {
      var b := blocks[j];
      assert blocks[j..][1..] == blocks[j + 1..];
      AppendOne(content, StripBlob(b), StripBlobs(blocks[j + 1..]));
      if b.Image? && b.source.Base64? {
        content := content + [Text(IMAGE_STUB, "", false)];
        continue;
      }
      if b.Document? && b.source.Base64? {
        content := content + [Text(PdfStub(b.title), "", false)];
        continue;
      }
      content := content + [b];
    }
    assert content + [] == content;
  }

  method StripAttachmentBlobs(history: seq<Message>) returns (out: seq<Message>)
    ensures out == Stripped(history)
  {
    out := [];
    for i := 0 to |history|
      invariant out + Stripped(history[i..]) == Stripped(history)
    {
      assert history[i..][1..] == history[i + 1..];
      var m := history[i];
      var content := StripContent(Editable(m));
      out := out + [if m.Turn? && !m.loaded then m.(content := content) else m];
    }
    assert out + [] == out;
  }

  lemma {:induction false} StripBlobsKeepsIds(bs: seq<Block>)
    ensures UseIds(StripBlobs(bs)) == UseIds(bs) && ResultIds(StripBlobs(bs)) == ResultIds(bs)
  {
    if bs != [] {
      StripBlobsKeepsIds(bs[1..]);
      assert StripBlobs(bs)[1..] == StripBlobs(bs[1..]);
    }
  }

  lemma {:induction false} StrippedPointwise(h: seq<Message>)
    ensures |Stripped(h)| == |h|
    ensures forall i :: 0 <= i < |h| ==> Stripped(h)[i] == StripMessage(h[i])
  {
    if h != [] {
      StrippedPointwise(h[1..]);
    }
  }

  /** Dropping attachment payloads before saving changes neither pairing nor the opening turn. */
  lemma {:induction false} StripKeepsPairing(open: multiset<string>, h: seq<Message>)
    ensures PairedFrom(open, Stripped(h)) <==> PairedFrom(open, h)
    ensures OpenAfter(open, Stripped(h)) == OpenAfter(open, h)
    ensures Led(Stripped(h)) <==> Led(h)
  {
    StrippedPointwise(h);
    forall i | 0 <= i < |h| ensures SameTools(Stripped(h)[i], h[i]) {
      StripBlobsKeepsIds(Blocks(h[i]));
    }
    SameToolsSamePairing(open, Stripped(h), h);
  }

  /** A base64 image or document. */
  predicate IsPayload(b: Block) {
    (b.Image? || b.Document?) && b.source.Base64?
  }

  /** What stands for a payload in the file. */
  predicate StandsFor(c: Block, b: Block) {
    && c.Text? && c.from == "" && !c.citations
    && var rest := " elided from persisted history \U{E2}\U{80}\U{94} original was processed in-run]";
       c.text == if b.Image? then "[image attachment" + rest
                 else if b.Document? && b.title != "" then "[PDF attachment \"" + b.title + "\"" + rest
                 else "[PDF attachment" + rest
  }

  lemma {:induction false} BlobsPointwise(bs: seq<Block>)
    ensures |StripBlobs(bs)| == |bs|
    ensures forall j :: 0 <= j < |bs| ==>
              if IsPayload(bs[j]) then StandsFor(StripBlobs(bs)[j], bs[j]) else StripBlobs(bs)[j] == bs[j]
  {
    if bs != [] {
      BlobsPointwise(bs[1..]);
      assert forall j :: 0 < j < |bs| ==> StripBlobs(bs)[j] == StripBlobs(bs[1..])[j - 1] && bs[j] == bs[1..][j - 1];
      StubStands(bs[0]);
    }
  }

  lemma {:induction false} StubStands(b: Block)
    ensures if IsPayload(b) then StandsFor(StripBlob(b), b) else StripBlob(b) == b
  {
  }

  /** A save drops exactly the attachment payloads of fresh messages: each leaves a note in its place, and every
      other block, message and role stays as it is, in order. */
  lemma {:induction false} StripMeaning(h: seq<Message>, i: nat)
    requires i < |h|
    ensures |Stripped(h)| == |h|
    ensures (!h[i].Turn? || h[i].loaded) ==> Stripped(h)[i] == h[i]
    ensures h[i].Turn? && !h[i].loaded ==>
              var bs, n := h[i].content, Stripped(h)[i];
              && n.Turn? && n == Turn(h[i].role, n.content, false) && |n.content| == |bs|
              && forall j :: 0 <= j < |bs| ==>
                   if IsPayload(bs[j]) then StandsFor(n.content[j], bs[j]) else n.content[j] == bs[j]
  {
    StrippedPointwise(h);
    if h[i].Turn? {
      BlobsPointwise(h[i].content);
    }
  }

  // ----- Who wrote a message -----

  /** The first text block names the sender. */
  predicate NamesSender(bs: seq<Block>, from: string) {
    exists j :: 0 <= j < |bs| && bs[j].Text? && bs[j].from == from && forall k :: 0 <= k < j ==> !bs[k].Text?
  }

  lemma {:induction false} SenderIsFirst(bs: seq<Block>)
    ensures FromOf(bs) != "" ==> NamesSender(bs, FromOf(bs))
    ensures forall from :: from != "" && NamesSender(bs, from) ==> from == FromOf(bs)
  {
    if bs != [] {
      SenderIsFirst(bs[1..]);
      if !bs[0].Text? {
        if FromOf(bs) != "" {
          var j :| 0 <= j < |bs[1..]| && bs[1..][j].Text? && bs[1..][j].from == FromOf(bs)
                   && forall k :: 0 <= k < j ==> !bs[1..][k].Text?;
          assert bs[j + 1] == bs[1..][j];
          assert forall k :: 0 < k < j + 1 ==> bs[k] == bs[1..][k - 1];
        }
        forall from | from != "" && NamesSender(bs, from) ensures NamesSender(bs[1..], from) {
          var j :| 0 <= j < |bs| && bs[j].Text? && bs[j].from == from && forall k :: 0 <= k < j ==> !bs[k].Text?;
          assert bs[1..][j - 1] == bs[j];
          assert forall k :: 0 <= k < j - 1 ==> bs[1..][k] == bs[k + 1];
        }
      } else {
        assert FromOf(bs) != "" ==> bs[0].from == FromOf(bs);
      }
    }
  }

  /** The anchor is the newest user turn without tool results whose first text names a sender that is no agent;
      there is none if the agents are not known. */
  predicate WrittenByHuman(m: Message, agents: set<string>) {
    && m.Turn? && m.role == "user" && (forall j :: 0 <= j < |m.content| ==> !m.content[j].ToolResult?)
    && exists j :: 0 <= j < |m.content| && m.content[j].Text? && (forall k :: 0 <= k < j ==> !m.content[k].Text?)
                   && m.content[j].from != "" && ToLower(m.content[j].from) !in agents
  }

  lemma {:induction false} NoResults(bs: seq<Block>)
    ensures ResultIds(bs) == [] <==> forall j :: 0 <= j < |bs| ==> !bs[j].ToolResult?
  {
    if bs != [] {
      NoResults(bs[1..]);
      assert forall j :: 0 < j < |bs| ==> bs[j] == bs[1..][j - 1];
      if ResultIds(bs) != [] && !bs[0].ToolResult? {
        var j :| 0 <= j < |bs[1..]| && bs[1..][j].ToolResult?;
        assert bs[j + 1].ToolResult?;
      }
    }
  }

  lemma {:induction false} HumanMeaning(m: Message, agents: set<string>)
    ensures IsHuman(m, agents) <==> WrittenByHuman(m, agents)
  {
    if m.Turn? {
      var bs, ids := m.content, ResultIds(m.content);
      NoResults(bs);
      assert ids != [] ==> ids[0] in multiset(ids);
      SenderIsFirst(bs);
      if WrittenByHuman(m, agents) {
        var j :| 0 <= j < |bs| && bs[j].Text? && (forall k :: 0 <= k < j ==> !bs[k].Text?)
                 && bs[j].from != "" && ToLower(bs[j].from) !in agents;
        assert NamesSender(bs, bs[j].from);
      }
    }
  }

  lemma {:induction false} AnchorMeaning(h: seq<Message>, agents: set<string>)
    ensures agents == {} ==> Anchor(h, agents) == -1
    ensures agents != {} ==>
              var i := Anchor(h, agents);
              && (i >= 0 ==> WrittenByHuman(h[i], agents))
              && forall j :: i < j < |h| ==> !WrittenByHuman(h[j], agents)
  {
    forall j | 0 <= j < |h| ensures IsHuman(h[j], agents) <==> WrittenByHuman(h[j], agents) {
      HumanMeaning(h[j], agents);
    }
  }
}
