/** Approximate character counts of a transcript (internal/agents/agent.go, effectiveSize and the
    helpers below it).  Attachments count at flat rates, not by their payload. */
module Sizes {
  import opened Transcript

  const APPROX_IMAGE_CHARS := 6000
  const APPROX_PDF_CHARS := 12000

  function TextSize(parts: seq<ResultPart>): nat {
    if parts == [] then 0
    else (if parts[0].TextPart? then |parts[0].text| else 0) + TextSize(parts[1..])
  }

  function PartsSize(parts: seq<ResultPart>): nat {
    if parts == [] then 0
    else (if parts[0].TextPart? then |parts[0].text| else APPROX_IMAGE_CHARS) + PartsSize(parts[1..])
  }

  /** A fresh input counts as re-encoded, missing input as null; a loaded one as it is spelled in the file. */
  function InputSize(input: Input, loaded: bool): nat {
    match input
    case Empty => if loaded then 0 else |"null"|
    case Json(text, compact, _) => if loaded then |text| else |compact|
    case Broken(_) => 0
  }

  function BlockSize(b: Block, loaded: bool): nat {
    match b
    case Text(text, _, _) => |text|
    case ToolUse(id, name, input) => |name| + |id| + InputSize(input, loaded)
    case ToolResult(id, parts, _) => |id| + PartsSize(parts)
    case Image(source) => if source.Url? then |source.url| else APPROX_IMAGE_CHARS
    case Document(source, _) =>
      (match source
       case Plain(data) => |data|
       case Url(url) => |url|
       case Base64(_) => APPROX_PDF_CHARS)
    case _ => 0
  }

  function BlocksSize(bs: seq<Block>, loaded: bool): nat {
    if bs == [] then 0 else BlockSize(bs[0], loaded) + BlocksSize(bs[1..], loaded)
  }

  function MessageSize(m: Message): nat {
    match m
    case Unreadable(raw) => |raw|
    case Turn(role, content, loaded) => |role| + 8 + BlocksSize(content, loaded)
  }

  function EffectiveSize(h: seq<Message>): nat {
    if h == [] then 0 else MessageSize(h[0]) + EffectiveSize(h[1..])
  }

  method ComputeEffectiveSize(history: seq<Message>) returns (total: nat)
    ensures total == EffectiveSize(history)
  {
    total := 0;
    for i := 0 to |history|
      invariant total + EffectiveSize(history[i..]) == EffectiveSize(history)
    {
      assert history[i..][1..] == history[i + 1..];
      total := total + MessageSize(history[i]);
    }
  }

  lemma {:induction false} TailIsNoLarger(h: seq<Message>, i: nat, j: nat)
    requires i <= j <= |h|
    ensures EffectiveSize(h[j..]) <= EffectiveSize(h[i..])
    decreases j - i
  {
    if i < j {
      assert h[i..][1..] == h[i + 1..];
      TailIsNoLarger(h, i + 1, j);
    }
  }

  // ----- What counts -----

  /** Sizes add up part by part: text by its length, an image at a flat rate. */
  lemma {:induction false} PartsAdd(parts: seq<ResultPart>, p: ResultPart)
    ensures TextSize([]) == 0 && PartsSize([]) == 0
    ensures TextSize(parts + [p]) == TextSize(parts) + if p.TextPart? then |p.text| else 0
    ensures PartsSize(parts + [p]) == PartsSize(parts) + if p.TextPart? then |p.text| else 6000
  {
    if parts == [] {
      assert [] + [p] == [p] && [p][1..] == [];
    } else {
      assert (parts + [p])[1..] == parts[1..] + [p];
      PartsAdd(parts[1..], p);
    }
  }

  /** The size of one more block. */
  predicate Costs(b: Block, loaded: bool, n: nat) {
    match b
    case Text(text, _, _) => n == |text|
    case ToolUse(id, name, input) =>
      (match input
       case Empty => n == |id| + |name| + if loaded then 0 else 4
       case Json(text, compact, _) => n == |id| + |name| + |if loaded then text else compact|
       case Broken(_) => n == |id| + |name|)
    case ToolResult(id, parts, _) => n == |id| + PartsSize(parts)
    case Image(Url(url)) => n == |url|
    case Image(_) => n == 6000
    case Document(Plain(data), _) => n == |data|
    case Document(Url(url), _) => n == |url|
    case Document(Base64(_), _) => n == 12000
    case _ => n == 0
  }

  /** A message costs its role, an envelope of 8, and its blocks. */
  lemma {:induction false} BlocksAdd(role: string, bs: seq<Block>, b: Block, loaded: bool)
    ensures MessageSize(Turn(role, [], loaded)) == |role| + 8
    ensures var before, after := MessageSize(Turn(role, bs, loaded)), MessageSize(Turn(role, bs + [b], loaded));
            before <= after && Costs(b, loaded, after - before)
  {
    ContentAdds(bs, b, loaded);
  }

  lemma {:induction false} ContentAdds(bs: seq<Block>, b: Block, loaded: bool)
    ensures BlocksSize(bs, loaded) <= BlocksSize(bs + [b], loaded)
    ensures Costs(b, loaded, BlocksSize(bs + [b], loaded) - BlocksSize(bs, loaded))
  {
    if bs == [] {
      assert [] + [b] == [b] && [b][1..] == [];
    } else {
      assert (bs + [b])[1..] == bs[1..] + [b];
      ContentAdds(bs[1..], b, loaded);
    }
  }

  /** A history costs its messages; what does not parse, its length. */
  lemma {:induction false} MessagesAdd(h: seq<Message>, m: Message)
    ensures EffectiveSize([]) == 0 && EffectiveSize(h + [m]) == EffectiveSize(h) + MessageSize(m)
    ensures m.Unreadable? ==> MessageSize(m) == |m.raw|
  {
    if h == [] {
      assert [] + [m] == [m] && [m][1..] == [];
    } else {
      assert (h + [m])[1..] == h[1..] + [m];
      MessagesAdd(h[1..], m);
    }
  }

  predicate CompactInputs(bs: seq<Block>) {
    forall i :: 0 <= i < |bs| && bs[i].ToolUse? && !bs[i].input.Broken? ==>
      bs[i].input.Json? && |bs[i].input.text| == |bs[i].input.compact|
  }

  /** The two ways of measuring a message agree: a message weighs the same fresh and loaded, if its inputs are
      spelled as the encoder does. */
  lemma {:induction false} LoadedWeighsTheSame(role: string, bs: seq<Block>)
    requires CompactInputs(bs)
    ensures MessageSize(Turn(role, bs, true)) == MessageSize(Turn(role, bs, false))
  {
    if bs != [] {
      assert CompactInputs(bs[1..]) by {
        assert forall i :: 0 <= i < |bs[1..]| ==> bs[1..][i] == bs[i + 1];
      }
      LoadedWeighsTheSame(role, bs[1..]);
    }
  }
}
