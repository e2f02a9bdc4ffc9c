/** Greedy compression of tool results (internal/agents/agent.go, compressToolResults). */
module Compression {
  import opened Sizes
  import opened Strings
  import opened Transcript

  /** A tool result with text, in a message whose content is open to editing. */
  datatype Ref = Ref(msg: nat, block: nat, size: nat)

  /** The content a loaded message shows is empty: it lives in the wrapped JSON. */
  function Editable(m: Message): seq<Block> {
    if m.Turn? && !m.loaded then m.content else []
  }

  function BlockRefs(bs: seq<Block>, msg: nat, j: nat): seq<Ref>
    requires j <= |bs|
    decreases |bs| - j
  {
    if j == |bs| then []
    else
      (if bs[j].ToolResult? && TextSize(bs[j].parts) > 0 then [Ref(msg, j, TextSize(bs[j].parts))] else [])
      + BlockRefs(bs, msg, j + 1)
  }

  function Refs(h: seq<Message>, i: nat): seq<Ref>
    requires i <= |h|
    decreases |h| - i
  {
    if i == |h| then [] else BlockRefs(Editable(h[i]), i, 0) + Refs(h, i + 1)
  }

  /** The inner loop of the exchange sort, from column `j` on. */
  function SortInner(s: seq<Ref>, i: nat, j: nat): (r: seq<Ref>)
    requires i < |s| && i < j <= |s|
    ensures |r| == |s|
    decreases |s| - j
  {
    if j == |s| then s
    else SortInner(if s[j].size > s[i].size then s[i := s[j]][j := s[i]] else s, i, j + 1)
  }

  function SortOuter(s: seq<Ref>, i: nat): (r: seq<Ref>)
    requires i <= |s|
    ensures |r| == |s|
    decreases |s| - i
  {
    if i == |s| then s else SortOuter(SortInner(s, i, i + 1), i + 1)
  }

  function LargestFirst(s: seq<Ref>): seq<Ref> {
    SortOuter(s, 0)
  }

  method SortLargestFirst(refs: array<Ref>)
    modifies refs
    ensures refs[..] == LargestFirst(old(refs[..]))
  {
    var i := 0;
    while i < refs.Length
      invariant 0 <= i <= refs.Length
      invariant SortOuter(refs[..], i) == LargestFirst(old(refs[..]))
    {
      ghost var before := refs[..];
      var j := i + 1;
      while j < refs.Length
        invariant i < j <= refs.Length
        invariant SortInner(refs[..], i, j) == SortInner(before, i, i + 1)
      {
        if refs[j].size > refs[i].size {
          refs[i], refs[j] := refs[j], refs[i];
        }
        j := j + 1;
      }
      i := i + 1;
    }
  }

  predicate ValidRef(h: seq<Message>, r: Ref) {
    r.msg < |h| && r.block < |Editable(h[r.msg])| && Editable(h[r.msg])[r.block].ToolResult?
  }

  function StubText(size: nat): string {
    "[compressed for context window: " + Decimal(size) + " chars elided]"
  }

  function Stub(h: seq<Message>, r: Ref): (h': seq<Message>)
    requires ValidRef(h, r)
    ensures |h'| == |h|
    ensures forall q :: ValidRef(h, q) ==> ValidRef(h', q)
  {
    var m := h[r.msg];
    var b := m.content[r.block];
    h[r.msg := m.(content := m.content[r.block := b.(parts := [TextPart(StubText(r.size))])])]
  }

  function StubUntilFits(h: seq<Message>, refs: seq<Ref>, maxChars: int): seq<Message>
    requires forall k :: 0 <= k < |refs| ==> ValidRef(h, refs[k])
    decreases |refs|
  {
    if refs == [] || EffectiveSize(h) <= maxChars then h
    else StubUntilFits(Stub(h, refs[0]), refs[1..], maxChars)
  }

  function Compress(h: seq<Message>, maxChars: int): seq<Message> {
    RefsAreValid(h, 0);
    SortingPermutes(Refs(h, 0), 0);
    PermutedRefsAreValid(h);
    StubUntilFits(h, LargestFirst(Refs(h, 0)), maxChars)
  }

  method ResultTextSize(b: Block) returns (size: nat)
    requires b.ToolResult?
    ensures size == TextSize(b.parts)
  {
    size := 0;
    for p := 0 to |b.parts|
      invariant size + TextSize(b.parts[p..]) == TextSize(b.parts)
    {
      assert b.parts[p..][1..] == b.parts[p + 1..];
      if b.parts[p].TextPart? {
        size := size + |b.parts[p].text|;
      }
    }
  }

  method CollectBlockRefs(content: seq<Block>, msg: nat) returns (found: seq<Ref>)
    ensures found == BlockRefs(content, msg, 0)
  {
    found := [];
    for j := 0 to |content|
      invariant found + BlockRefs(content, msg, j) == BlockRefs(content, msg, 0)
    {
      if !content[j].ToolResult? {
        continue;
      }
      var size := ResultTextSize(content[j]);
      if size > 0 {
        found := found + [Ref(msg, j, size)];
      }
    }
    assert found + [] == found;
  }

  /** First half of compressToolResults: list the tool results that carry text. */
  method CollectRefs(history: seq<Message>) returns (found: seq<Ref>)
    ensures found == Refs(history, 0)
  {
    found := [];
    for i := 0 to |history|
      invariant Refs(history, 0) == found + Refs(history, i)
    {
      var more := CollectBlockRefs(Editable(history[i]), i);
      AppendMany(found, more, Refs(history, i + 1));
      found := found + more;
    }
    assert found + [] == found;
  }

  /** Second half: overwrite the largest results in the copied list until it fits. */
  method StubLargest(out: array<Message>, refs: array<Ref>, maxChars: int)
    requires forall k :: 0 <= k < refs.Length ==> ValidRef(out[..], refs[k])
    modifies out
    ensures out[..] == StubUntilFits(old(out[..]), refs[..], maxChars)
  {
    ghost var sorted := refs[..];
    assert sorted[0..] == sorted;
    var r := 0;
    while r < refs.Length
      invariant 0 <= r <= refs.Length
      invariant forall k :: r <= k < |sorted| ==> ValidRef(out[..], sorted[k])
      invariant StubUntilFits(out[..], sorted[r..], maxChars) == StubUntilFits(old(out[..]), sorted, maxChars)
    {
      var size := ComputeEffectiveSize(out[..]);
      if size <= maxChars {
        break;
      }
      var ref := refs[r];
      assert ValidRef(out[..], sorted[r]);
      ghost var before := out[..];
      var fixed := out[ref.msg].content[ref.block].(parts := [TextPart(StubText(ref.size))]);
      out[ref.msg] := out[ref.msg].(content := out[ref.msg].content[ref.block := fixed]);
      assert out[..] == Stub(before, sorted[r]);
      assert sorted[r..][1..] == sorted[r + 1..];
      r := r + 1;
    }
  }

  method CompressToolResults(history: seq<Message>, maxChars: int) returns (compressed: seq<Message>)
    ensures compressed == Compress(history, maxChars)
  {
    var out := new Message[|history|](i requires 0 <= i < |history| => history[i]);
    var found := CollectRefs(history);
    var refs := new Ref[|found|](i requires 0 <= i < |found| => found[i]);
    assert out[..] == history && refs[..] == found;
    SortLargestFirst(refs);
    RefsAreValid(history, 0);
    SortingPermutes(found, 0);
    PermutedRefsAreValid(history);
    forall k | 0 <= k < refs.Length ensures ValidRef(out[..], refs[k]) {
      assert refs[k] == LargestFirst(found)[k];
    }
    StubLargest(out, refs, maxChars);
    return out[..];
  }

  lemma {:induction false} BlockRefsAreValid(h: seq<Message>, msg: nat, j: nat)
    requires msg < |h| && j <= |Editable(h[msg])|
    ensures forall r :: r in BlockRefs(Editable(h[msg]), msg, j) <==>
              && r.msg == msg && j <= r.block && ValidRef(h, r)
              && r.size == TextSize(Editable(h[msg])[r.block].parts) && r.size > 0
    decreases |Editable(h[msg])| - j
  {
    if j < |Editable(h[msg])| {
      BlockRefsAreValid(h, msg, j + 1);
    }
  }

  /** The references are exactly the editable tool results with text, with their text sizes. */
  lemma {:induction false} RefsAreValid(h: seq<Message>, i: nat)
    requires i <= |h|
    ensures forall r :: r in Refs(h, i) <==>
              && i <= r.msg && ValidRef(h, r)
              && r.size == TextSize(Editable(h[r.msg])[r.block].parts) && r.size > 0
    decreases |h| - i
  {
    if i < |h| {
      BlockRefsAreValid(h, i, 0);
      RefsAreValid(h, i + 1);
    }
  }

  /** `r` is `s` with its tail from `i` on permuted and the largest of it moved to `i`. */
  ghost predicate Selected(s: seq<Ref>, r: seq<Ref>, i: nat) {
    && |r| == |s| && i < |s| && multiset(r) == multiset(s) && r[..i] == s[..i]
    && (forall k :: i < k < |r| ==> r[k].size <= r[i].size)
    && (forall k :: i <= k < |r| ==> r[k] in s[i..])
  }

  lemma {:induction false} SelectedAfterSwap(s: seq<Ref>, i: nat, j: nat, r: seq<Ref>)
    requires i < j < |s| && Selected(s[i := s[j]][j := s[i]], r, i)
    ensures Selected(s, r, i)
  {
    var t := s[i := s[j]][j := s[i]];
    assert t[..i] == s[..i];
    assert s[i..][0] == s[i] && s[i..][j - i] == s[j];
    forall k | 0 <= k < |t[i..]| ensures t[i..][k] in s[i..] {
      assert k != 0 && k != j - i ==> t[i..][k] == s[i..][k];
    }
  }

  lemma {:induction false} SortInnerPermutes(s: seq<Ref>, i: nat, j: nat)
    requires i < |s| && i < j <= |s|
    requires forall k :: i < k < j ==> s[k].size <= s[i].size
    ensures Selected(s, SortInner(s, i, j), i)
    decreases |s| - j
  {
    if j == |s| {
      assert forall k :: i <= k < |s| ==> s[k] == s[i..][k - i];
    } else if s[j].size > s[i].size {
      var t := s[i := s[j]][j := s[i]];
      SortInnerPermutes(t, i, j + 1);
      SelectedAfterSwap(s, i, j, SortInner(t, i, j + 1));
    } else {
      SortInnerPermutes(s, i, j + 1);
    }
  }

  lemma {:induction false} SortingPermutes(s: seq<Ref>, i: nat)
    requires i <= |s|
    ensures multiset(SortOuter(s, i)) == multiset(s)
    ensures SortOuter(s, i)[..i] == s[..i]
    decreases |s| - i
  {
    if i < |s| {
      var t := SortInner(s, i, i + 1);
      SortInnerPermutes(s, i, i + 1);
      SortingPermutes(t, i + 1);
      var r := SortOuter(t, i + 1);
      assert r[..i] == r[..i + 1][..i] == t[..i + 1][..i] == t[..i];
    }
  }

  lemma {:induction false} PermutedRefsAreValid(h: seq<Message>)
    requires forall r | r in Refs(h, 0) :: ValidRef(h, r)
    requires multiset(LargestFirst(Refs(h, 0))) == multiset(Refs(h, 0))
    ensures forall k :: 0 <= k < |LargestFirst(Refs(h, 0))| ==> ValidRef(h, LargestFirst(Refs(h, 0))[k])
  {
    var s := LargestFirst(Refs(h, 0));
    forall k | 0 <= k < |s| ensures ValidRef(h, s[k]) {
      assert s[k] in multiset(s);
      assert s[k] in multiset(Refs(h, 0));
    }
  }

  // ----- What compression does -----

  lemma {:induction false} SortingSorts(s: seq<Ref>, i: nat)
    requires i <= |s|
    requires forall a, b :: 0 <= a < i && a < b < |s| ==> s[a].size >= s[b].size
    ensures forall a, b :: 0 <= a < b < |s| ==> SortOuter(s, i)[a].size >= SortOuter(s, i)[b].size
    decreases |s| - i
  {
    if i < |s| {
      var t := SortInner(s, i, i + 1);
      SortInnerPermutes(s, i, i + 1);
      forall a, b | 0 <= a < i && a < b < |t| ensures t[a].size >= t[b].size {
        assert t[a] == t[..i][a] == s[..i][a] == s[a];
        if b < i {
          assert t[b] == t[..i][b] == s[..i][b] == s[b];
        } else {
          var c :| 0 <= c < |s[i..]| && s[i..][c] == t[b];
          assert s[i + c] == t[b];
        }
      }
      SortingSorts(t, i + 1);
    }
  }

  /** Same content, except that a tool result may carry other parts. */
  predicate SameBlock(b: Block, c: Block) {
    b == c || (b.ToolResult? && c.ToolResult? && c == b.(parts := c.parts))
  }

  /** Same role, same blocks in the same order with the same ids; a loaded message is unchanged. */
  predicate SameShape(m: Message, n: Message) {
    m == n ||
    (m.Turn? && n.Turn? && m.role == n.role && !m.loaded && !n.loaded && |m.content| == |n.content| &&
     forall j :: 0 <= j < |m.content| ==> SameBlock(m.content[j], n.content[j]))
  }

  predicate SameShapes(h: seq<Message>, k: seq<Message>) {
    |h| == |k| && forall i :: 0 <= i < |h| ==> SameShape(h[i], k[i])
  }

  lemma {:induction false} SameBlocksSameIds(bs: seq<Block>, cs: seq<Block>)
    requires |bs| == |cs| && forall j :: 0 <= j < |bs| ==> SameBlock(bs[j], cs[j])
    ensures UseIds(bs) == UseIds(cs) && ResultIds(bs) == ResultIds(cs)
  {
    if bs != [] {
      SameBlocksSameIds(bs[1..], cs[1..]);
      assert SameBlock(bs[0], cs[0]);
    }
  }

  lemma {:induction false} SameShapesKeepPairing(open: multiset<string>, h: seq<Message>, k: seq<Message>)
    requires SameShapes(h, k)
    ensures PairedFrom(open, h) <==> PairedFrom(open, k)
    ensures OpenAfter(open, h) == OpenAfter(open, k)
    ensures Led(h) <==> Led(k)
  {
    forall i | 0 <= i < |h| ensures SameTools(h[i], k[i]) {
      assert SameShape(h[i], k[i]);
      if h[i] != k[i] { SameBlocksSameIds(h[i].content, k[i].content); }
    }
    SameToolsSamePairing(open, h, k);
  }

  lemma {:induction false} SameShapeTransitive(a: Message, b: Message, c: Message)
    requires SameShape(a, b) && SameShape(b, c)
    ensures SameShape(a, c)
  {
    if a != b && b != c {
      forall j | 0 <= j < |a.content| ensures SameBlock(a.content[j], c.content[j]) {
        assert SameBlock(a.content[j], b.content[j]) && SameBlock(b.content[j], c.content[j]);
      }
    }
  }

  function StubAll(h: seq<Message>, refs: seq<Ref>): (h': seq<Message>)
    requires forall k :: 0 <= k < |refs| ==> ValidRef(h, refs[k])
    ensures |h'| == |h|
    decreases |refs|
  {
    if refs == [] then h else StubAll(Stub(h, refs[0]), refs[1..])
  }

  lemma {:induction false} StubAllKeepsShapes(h: seq<Message>, refs: seq<Ref>)
    requires forall k :: 0 <= k < |refs| ==> ValidRef(h, refs[k])
    ensures SameShapes(h, StubAll(h, refs))
    decreases |refs|
  {
    if refs != [] {
      var g := Stub(h, refs[0]);
      StubAllKeepsShapes(g, refs[1..]);
      forall i | 0 <= i < |h| ensures SameShape(h[i], StubAll(h, refs)[i]) {
        SameShapeTransitive(h[i], g[i], StubAll(h, refs)[i]);
      }
    }
  }

  predicate Names(refs: seq<Ref>, i: nat, j: nat) {
    exists k :: 0 <= k < |refs| && refs[k].msg == i && refs[k].block == j
  }

  lemma {:induction false} NamesStep(refs: seq<Ref>, i: nat, j: nat)
    requires refs != []
    ensures Names(refs, i, j) <==> (refs[0].msg == i && refs[0].block == j) || Names(refs[1..], i, j)
  {
    if Names(refs, i, j) {
      var k :| 0 <= k < |refs| && refs[k].msg == i && refs[k].block == j;
      assert k > 0 ==> refs[1..][k - 1] == refs[k];
    }
    if Names(refs[1..], i, j) {
      var k :| 0 <= k < |refs[1..]| && refs[1..][k].msg == i && refs[1..][k].block == j;
      assert refs[k + 1] == refs[1..][k];
    }
  }

  function WithStub(b: Block, size: nat): Block {
    if b.ToolResult? then b.(parts := [TextPart(StubText(size))]) else b
  }

  lemma {:induction false} StubAt(h: seq<Message>, r: Ref, i: nat, j: nat)
    requires ValidRef(h, r) && i < |h| && j < |Editable(h[i])|
    ensures |Editable(Stub(h, r)[i])| == |Editable(h[i])|
    ensures Editable(Stub(h, r)[i])[j] ==
            if r.msg == i && r.block == j then WithStub(Editable(h[i])[j], r.size) else Editable(h[i])[j]
  {
  }

  /** Exactly the referenced blocks are replaced. */
  lemma {:induction false} StubAllAt(h: seq<Message>, refs: seq<Ref>, i: nat, j: nat, size: nat)
    requires forall k :: 0 <= k < |refs| ==> ValidRef(h, refs[k])
    requires i < |h| && j < |Editable(h[i])|
    requires forall k :: 0 <= k < |refs| && refs[k].msg == i && refs[k].block == j ==> refs[k].size == size
    ensures |Editable(StubAll(h, refs)[i])| == |Editable(h[i])|
    ensures Editable(StubAll(h, refs)[i])[j] ==
            if Names(refs, i, j) then WithStub(Editable(h[i])[j], size) else Editable(h[i])[j]
    decreases |refs|
  {
    if refs != [] {
      StubAt(h, refs[0], i, j);
      NamesStep(refs, i, j);
      StubAllAt(Stub(h, refs[0]), refs[1..], i, j, size);
    }
  }

  lemma {:induction false} StubAllAppend(h: seq<Message>, refs: seq<Ref>, k: nat)
    requires forall k :: 0 <= k < |refs| ==> ValidRef(h, refs[k])
    requires 0 < k <= |refs|
    ensures StubAll(h, refs[..k]) == StubAll(Stub(h, refs[0]), refs[1..][..k - 1])
  {
    assert refs[..k][1..] == refs[1..][..k - 1];
  }

  /** The greedy loop stops at the first prefix that fits. */
  lemma {:induction false} StubbingStopsWhenItFits(h: seq<Message>, refs: seq<Ref>, maxChars: int) returns (k: nat)
    requires forall k :: 0 <= k < |refs| ==> ValidRef(h, refs[k])
    ensures k <= |refs| && StubUntilFits(h, refs, maxChars) == StubAll(h, refs[..k])
    ensures EffectiveSize(StubUntilFits(h, refs, maxChars)) <= maxChars || k == |refs|
    ensures forall j :: 0 <= j < k ==> EffectiveSize(StubAll(h, refs[..j])) > maxChars
    decreases |refs|
  {
    if refs == [] || EffectiveSize(h) <= maxChars {
      k := 0;
    } else {
      var n := StubbingStopsWhenItFits(Stub(h, refs[0]), refs[1..], maxChars);
      k := n + 1;
      StubAllAppend(h, refs, k);
      forall j | 0 <= j < k ensures EffectiveSize(StubAll(h, refs[..j])) > maxChars {
        if j == 0 {
          assert refs[..0] == [];
        } else {
          StubAllAppend(h, refs, j);
        }
      }
    }
  }

  /** `out` is `h` with exactly the results named by `refs` replaced by their stubs. */
  predicate Replaced(h: seq<Message>, out: seq<Message>, refs: seq<Ref>) {
    && |out| == |h|
    && forall i :: 0 <= i < |h| ==> ReplacedIn(Editable(h[i]), Editable(out[i]), refs, i)
  }

  predicate ReplacedIn(bs: seq<Block>, cs: seq<Block>, refs: seq<Ref>, i: nat) {
    && |cs| == |bs|
    && forall j :: 0 <= j < |bs| ==>
         cs[j] == if Names(refs, i, j) && bs[j].ToolResult? then WithStub(bs[j], TextSize(bs[j].parts)) else bs[j]
  }

  /** The references carry the sizes of the results they name. */
  ghost predicate TrueSizes(h: seq<Message>, refs: seq<Ref>) {
    forall k :: 0 <= k < |refs| ==>
      ValidRef(h, refs[k]) && refs[k].size == TextSize(Editable(h[refs[k].msg])[refs[k].block].parts)
  }

  lemma {:induction false} SameShapeEdits(m: Message, n: Message)
    requires SameShape(m, n)
    ensures |Editable(n)| == |Editable(m)|
  {
  }

  lemma {:induction false} ReplacedAt(h: seq<Message>, refs: seq<Ref>, i: nat, j: nat)
    requires TrueSizes(h, refs) && i < |h| && j < |Editable(h[i])|
    ensures |Editable(StubAll(h, refs)[i])| == |Editable(h[i])|
    ensures var b := Editable(h[i])[j];
            Editable(StubAll(h, refs)[i])[j]
            == if Names(refs, i, j) && b.ToolResult? then WithStub(b, TextSize(b.parts)) else b
  {
    hide StubAll;
    var b := Editable(h[i])[j];
    StubAllAt(h, refs, i, j, if b.ToolResult? then TextSize(b.parts) else 0);
  }

  lemma {:induction false} MessageReplaced(h: seq<Message>, refs: seq<Ref>, i: nat)
    requires TrueSizes(h, refs) && i < |h| && SameShapes(h, StubAll(h, refs))
    ensures ReplacedIn(Editable(h[i]), Editable(StubAll(h, refs)[i]), refs, i)
  {
    hide StubAll, Names;
    assert SameShape(h[i], StubAll(h, refs)[i]);
    SameShapeEdits(h[i], StubAll(h, refs)[i]);
    forall j | 0 <= j < |Editable(h[i])|
      ensures var b := Editable(h[i])[j];
              Editable(StubAll(h, refs)[i])[j]
              == if Names(refs, i, j) && b.ToolResult? then WithStub(b, TextSize(b.parts)) else b
    {
      ReplacedAt(h, refs, i, j);
    }
  }

  lemma {:induction false} StubAllReplaces(h: seq<Message>, refs: seq<Ref>)
    requires TrueSizes(h, refs)
    ensures SameShapes(h, StubAll(h, refs)) && Replaced(h, StubAll(h, refs), refs)
  {
    StubAllKeepsShapes(h, refs);
    hide StubAll, Names, TrueSizes, ReplacedIn;
    forall i | 0 <= i < |h| ensures ReplacedIn(Editable(h[i]), Editable(StubAll(h, refs)[i]), refs, i) {
      MessageReplaced(h, refs, i);
    }
  }

  /** Compression replaces the `k` largest text-bearing results of the editable messages by stubs and
      touches nothing else; it stops as soon as the list fits, or when no result is left. */
  lemma {:induction false} CompressMeaning(h: seq<Message>, maxChars: int) returns (order: seq<Ref>, k: nat)
    ensures multiset(order) == multiset(Refs(h, 0)) && k <= |order|
    ensures forall a, b :: 0 <= a < b < |order| ==> order[a].size >= order[b].size
    ensures forall a :: 0 <= a < |order| ==> ValidRef(h, order[a])
    ensures SameShapes(h, Compress(h, maxChars))
    ensures Replaced(h, Compress(h, maxChars), order[..k])
    ensures EffectiveSize(Compress(h, maxChars)) <= maxChars || k == |order|
    ensures forall j :: 0 <= j < k ==> EffectiveSize(StubAll(h, order[..j])) > maxChars
  {
    order := LargestOrder(h);
    hide Refs, SortOuter, StubAll, ReplacedIn;
    k := StubbingStopsWhenItFits(h, order, maxChars);
    assert TrueSizes(h, order[..k]);
    StubAllReplaces(h, order[..k]);
  }

  /** The order in which results are stubbed. */
  lemma {:induction false} LargestOrder(h: seq<Message>) returns (order: seq<Ref>)
    ensures order == LargestFirst(Refs(h, 0)) && multiset(order) == multiset(Refs(h, 0))
    ensures forall a, b :: 0 <= a < b < |order| ==> order[a].size >= order[b].size
    ensures TrueSizes(h, order)
  {
    order := LargestFirst(Refs(h, 0));
    RefsAreValid(h, 0);
    SortingPermutes(Refs(h, 0), 0);
    SortingSorts(Refs(h, 0), 0);
    forall k | 0 <= k < |order| ensures order[k] in Refs(h, 0) {
      assert order[k] in multiset(order);
      assert order[k] in multiset(Refs(h, 0));
    }
  }

  lemma {:induction false} ReferencedIsNamed(refs: seq<Ref>, order: seq<Ref>, r: Ref)
    requires multiset(order) == multiset(refs) && r in refs
    ensures Names(order, r.msg, r.block)
  {
    assert r in multiset(order);
    var l :| 0 <= l < |order| && order[l] == r;
  }

  /** In particular a result that is still oversized has no text-bearing result left to stub. */
  lemma {:induction false} OversizedMeansAllStubbed(h: seq<Message>, maxChars: int, i: nat, j: nat)
    requires EffectiveSize(Compress(h, maxChars)) > maxChars
    requires i < |h| && j < |Editable(h[i])|
    requires Editable(h[i])[j].ToolResult? && TextSize(Editable(h[i])[j].parts) > 0
    ensures |Compress(h, maxChars)| == |h|
    ensures |Editable(Compress(h, maxChars)[i])| == |Editable(h[i])|
    ensures Editable(Compress(h, maxChars)[i])[j] ==
            WithStub(Editable(h[i])[j], TextSize(Editable(h[i])[j].parts))
  {
    var order, k := CompressMeaning(h, maxChars);
    assert order[..k] == order;
    TextIsReferenced(h, i, j);
    ReferencedIsNamed(Refs(h, 0), order, Ref(i, j, TextSize(Editable(h[i])[j].parts)));
    assert ReplacedIn(Editable(h[i]), Editable(Compress(h, maxChars)[i]), order, i);
  }

  lemma {:induction false} TextIsReferenced(h: seq<Message>, i: nat, j: nat)
    requires i < |h| && j < |Editable(h[i])|
    requires Editable(h[i])[j].ToolResult? && TextSize(Editable(h[i])[j].parts) > 0
    ensures Ref(i, j, TextSize(Editable(h[i])[j].parts)) in Refs(h, 0)
  {
    RefsAreValid(h, 0);
  }

  /** A stub keeps the id and the error flag of its result and says how much text it stands for. */
  lemma {:induction false} StubMeaning(id: string, parts: seq<ResultPart>, isError: bool, size: nat)
    ensures WithStub(ToolResult(id, parts, isError), size)
         == ToolResult(id, [TextPart("[compressed for context window: " + Decimal(size) + " chars elided]")], isError)
  {
  }
}
