/** Conversation transcripts: content blocks, messages, and the tool-pairing discipline that every
    list of messages handed to a provider must satisfy. */
module Transcript {

  /** The JSON arguments of a tool call as they were streamed.  `text` is the spelling received,
      `compact` the spelling the encoder writes, `canonical` the key-sorted one. */
  datatype Input =
    | Empty
    | Json(text: string, compact: string, canonical: string)
    | Broken(raw: string)

  datatype ResultPart = TextPart(text: string) | ImagePart

  datatype Source = Base64(data: string) | Url(url: string) | Plain(data: string)

  /** `from` is the sender found when the text parses as an email summary, "" otherwise.
      `citations` and `extraFields` record keys that must not be sent back to the API; `corrupt`
      records the leaked union marker of a badly serialized server-side result. */
  datatype Block =
    | Text(text: string, from: string, citations: bool)
    | ToolUse(id: string, name: string, input: Input)
    | ToolResult(id: string, parts: seq<ResultPart>, isError: bool)
    | ServerCall(id: string, extraFields: bool)
    | ServerResult(id: string, corrupt: bool)
    | Thinking(thinking: string, signature: string)
    | RedactedThinking(data: string)
    | Image(source: Source)
    | Document(source: Source, title: string)
    | Unknown(raw: string)

  /** A message built in this run, or one read back from the memory file (`loaded`), whose role and
      content are hidden behind its raw JSON.  `Unreadable` does not parse as a message. */
  datatype Message =
    | Unreadable(raw: string)
    | Turn(role: string, content: seq<Block>, loaded: bool)

  const USER := "user"
  const ASSISTANT := "assistant"

  function UseIds(bs: seq<Block>): seq<string> {
    if bs == [] then []
    else (if bs[0].ToolUse? then [bs[0].id] else []) + UseIds(bs[1..])
  }

  function ResultIds(bs: seq<Block>): seq<string> {
    if bs == [] then []
    else (if bs[0].ToolResult? then [bs[0].id] else []) + ResultIds(bs[1..])
  }

  function Blocks(m: Message): seq<Block> {
    if m.Turn? then m.content else []
  }

  function Uses(m: Message): multiset<string> {
    multiset(UseIds(Blocks(m)))
  }

  function Results(m: Message): multiset<string> {
    multiset(ResultIds(Blocks(m)))
  }

  /** The client-tool blocks of a content list, in order. */
  function ToolBlocks(bs: seq<Block>): seq<Block> {
    if bs == [] then []
    else (if bs[0].ToolUse? || bs[0].ToolResult? then [bs[0]] else []) + ToolBlocks(bs[1..])
  }

  /** Tool calls are made by the assistant and answered by the user side. */
  predicate Disciplined(m: Message) {
    && (Uses(m) != multiset{} ==> m.Turn? && m.role == ASSISTANT)
    && (Results(m) != multiset{} ==> m.Turn? && m.role == USER)
  }

  /** `h` continues a transcript whose last turn left the calls `open` to be answered. */
  predicate PairedFrom(open: multiset<string>, h: seq<Message>)
    decreases |h|
  {
    h == [] || (Results(h[0]) == open && Disciplined(h[0]) && PairedFrom(Uses(h[0]), h[1..]))
  }

  /** The calls left open after `h`. */
  function OpenAfter(open: multiset<string>, h: seq<Message>): multiset<string> {
    if h == [] then open else Uses(h[|h| - 1])
  }

  predicate WellPaired(h: seq<Message>) {
    PairedFrom(multiset{}, h)
  }

  /** Well paired with nothing left to answer: a new user turn may be appended. */
  predicate Closed(h: seq<Message>) {
    WellPaired(h) && OpenAfter(multiset{}, h) == multiset{}
  }

  /** A user turn without tool results: the only place a transcript may start. */
  predicate SafeCut(m: Message) {
    m.Turn? && m.role == USER && Results(m) == multiset{}
  }

  predicate Led(h: seq<Message>) {
    h == [] || SafeCut(h[0])
  }

  /** Turn `i` answers exactly the calls of the turn directly before it. */
  predicate AnswersPrevious(open: multiset<string>, h: seq<Message>, i: nat)
    requires i < |h|
  {
    Disciplined(h[i]) && Results(h[i]) == if i == 0 then open else Uses(h[i - 1])
  }

  /** What the recursive definition says turn by turn: every turn answers exactly the calls of the
      turn directly before it, and the first answers what was open. */
  lemma {:induction false} PairedByTurn(open: multiset<string>, h: seq<Message>)
    ensures PairedFrom(open, h) <==> forall i | 0 <= i < |h| :: AnswersPrevious(open, h, i)
    decreases |h|
  {
    if h != [] {
      var p, rest := Uses(h[0]), h[1..];
      PairedByTurn(p, rest);
      assert forall i | 0 <= i < |rest| :: AnswersPrevious(p, rest, i) <==> AnswersPrevious(open, h, i + 1);
      assert AnswersPrevious(open, h, 0) <==> Results(h[0]) == open && Disciplined(h[0]);
      if PairedFrom(open, h) {
        forall i | 0 <= i < |h| ensures AnswersPrevious(open, h, i) {
          assert i > 0 ==> AnswersPrevious(p, rest, i - 1);
        }
      }
    }
  }

  /** With distinct call ids, a well-paired transcript answers each call of a non-last turn exactly
      once in the next turn, and every result names a call of the turn directly before it. */
  lemma {:induction false} EachCallAnsweredOnce(h: seq<Message>, i: nat, id: string)
    requires WellPaired(h) && i + 1 < |h|
    requires Uses(h[i])[id] <= 1
    ensures Results(h[i + 1])[id] == 1 <==> id in UseIds(Blocks(h[i]))
    ensures Results(h[i + 1])[id] == 0 <==> id !in UseIds(Blocks(h[i]))
  {
    PairedByTurn(multiset{}, h);
    assert AnswersPrevious(multiset{}, h, i + 1);
    assert id in Uses(h[i]) <==> id in UseIds(Blocks(h[i]));
  }

  lemma {:induction false} PairedCons(open: multiset<string>, m: Message, rest: seq<Message>)
    ensures PairedFrom(open, [m] + rest) <==>
            Results(m) == open && Disciplined(m) && PairedFrom(Uses(m), rest)
    ensures OpenAfter(open, [m] + rest) == OpenAfter(Uses(m), rest)
  {
    assert ([m] + rest)[1..] == rest;
  }

  lemma {:induction false} PairedAppend(open: multiset<string>, a: seq<Message>, b: seq<Message>)
    ensures PairedFrom(open, a + b) <==> PairedFrom(open, a) && PairedFrom(OpenAfter(open, a), b)
    ensures OpenAfter(open, a + b) == OpenAfter(OpenAfter(open, a), b)
    decreases |a|
  {
    if a == [] {
      assert a + b == b;
    } else {
      assert (a + b)[1..] == a[1..] + b;
      PairedAppend(Uses(a[0]), a[1..], b);
    }
  }

  /** A suffix that starts at a safe cut is well paired on its own. */
  lemma {:induction false} PairedSuffix(h: seq<Message>, cut: nat)
    requires WellPaired(h) && cut < |h| && SafeCut(h[cut])
    ensures WellPaired(h[cut..])
    ensures Closed(h) ==> Closed(h[cut..])
  {
    assert h == h[..cut] + h[cut..];
    PairedAppend(multiset{}, h[..cut], h[cut..]);
  }

  lemma {:induction false} ToolBlocksCarryIds(bs: seq<Block>)
    ensures UseIds(ToolBlocks(bs)) == UseIds(bs)
    ensures ResultIds(ToolBlocks(bs)) == ResultIds(bs)
  {
    if bs != [] {
      ToolBlocksCarryIds(bs[1..]);
      var head := if bs[0].ToolUse? || bs[0].ToolResult? then [bs[0]] else [];
      if head == [] {
        assert head + ToolBlocks(bs[1..]) == ToolBlocks(bs[1..]);
      } else {
        assert (head + ToolBlocks(bs[1..]))[1..] == ToolBlocks(bs[1..]);
      }
    }
  }

  /** As far as pairing is concerned the two messages are the same. */
  predicate SameTools(m: Message, n: Message) {
    Uses(m) == Uses(n) && Results(m) == Results(n) && Disciplined(m) == Disciplined(n) && SafeCut(m) == SafeCut(n)
  }

  lemma {:induction false} SameToolBlocks(m: Message, n: Message)
    requires ToolBlocks(Blocks(m)) == ToolBlocks(Blocks(n))
    requires m.Turn? == n.Turn? && (m.Turn? ==> m.role == n.role)
    ensures SameTools(m, n)
  {
    ToolBlocksCarryIds(Blocks(m));
    ToolBlocksCarryIds(Blocks(n));
  }

  lemma {:induction false} SameToolsSamePairing(open: multiset<string>, h: seq<Message>, k: seq<Message>)
    requires |h| == |k| && forall i :: 0 <= i < |h| ==> SameTools(h[i], k[i])
    ensures PairedFrom(open, h) <==> PairedFrom(open, k)
    ensures OpenAfter(open, h) == OpenAfter(open, k)
    ensures Led(h) <==> Led(k)
  {
    assert h != [] ==> SameTools(h[0], k[0]);
    SamePairingFrom(open, h, k, 0);
    assert h[0..] == h && k[0..] == k;
  }

  lemma {:induction false} SamePairingFrom(open: multiset<string>, h: seq<Message>, k: seq<Message>, i: nat)
    requires i <= |h| == |k| && forall j :: 0 <= j < |h| ==> SameTools(h[j], k[j])
    ensures PairedFrom(open, h[i..]) <==> PairedFrom(open, k[i..])
    ensures OpenAfter(open, h[i..]) == OpenAfter(open, k[i..])
    decreases |h| - i
  {
    hide *;
    if i < |h| {
      SamePairingFrom(Uses(h[i]), h, k, i + 1);
      assert SameTools(h[i], k[i]);
      SamePairingStep(open, h[i], k[i], h[i + 1..], k[i + 1..]);
      assert h[i..] == [h[i]] + h[i + 1..] && k[i..] == [k[i]] + k[i + 1..];
    }
  }

  lemma {:induction false} SamePairingStep(open: multiset<string>, m: Message, n: Message, h: seq<Message>,
                                           k: seq<Message>)
    requires SameTools(m, n)
    requires PairedFrom(Uses(m), h) <==> PairedFrom(Uses(m), k)
    requires OpenAfter(Uses(m), h) == OpenAfter(Uses(m), k)
    ensures PairedFrom(open, [m] + h) <==> PairedFrom(open, [n] + k)
    ensures OpenAfter(open, [m] + h) == OpenAfter(open, [n] + k)
  {
    PairedCons(open, m, h);
    PairedCons(open, n, k);
  }
}
