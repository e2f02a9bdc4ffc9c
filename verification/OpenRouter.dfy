/** Translating a transcript to the OpenRouter chat format (internal/provider/openrouter.go:
    convertMessages, convertUserMessages, convertAssistantMessage, rawMessageToOpenRouter). */
module OpenRouter {
  import opened Lines
  import Strings
  import opened Transcript

  datatype Part = TextPiece(text: string) | ImagePiece(url: string) | FilePiece(data: string)

  datatype ToolCall = ToolCall(id: string, name: string, args: string)

  datatype ChatMessage =
    | System(text: string)
    | User(text: string, parts: seq<Part>)
    | Assistant(text: string, calls: seq<ToolCall>)
    | Tool(id: string, text: string)
    | Other(role: string, text: string)

  // ----- Text -----

  function Texts(bs: seq<Block>): seq<string> {
    if bs == [] then [] else (if bs[0].Text? then [bs[0].text] else []) + Texts(bs[1..])
  }

  /** The first text part of a tool result. */
  function FirstText(parts: seq<ResultPart>): string {
    if parts == [] then "" else if parts[0].TextPart? then parts[0].text else FirstText(parts[1..])
  }

  // ----- Tool calls and results -----

  /** Missing input encodes as null; input that does not encode is sent as the empty string. */
  function Args(input: Input): string {
    match input
    case Empty => "null"
    case Json(_, compact, _) => compact
    case Broken(_) => ""
  }

  function Calls(bs: seq<Block>): seq<ToolCall> {
    if bs == [] then []
    else (if bs[0].ToolUse? then [ToolCall(bs[0].id, bs[0].name, Args(bs[0].input))] else []) + Calls(bs[1..])
  }

  function ToolMessages(bs: seq<Block>): seq<ChatMessage> {
    if bs == [] then []
    else (if bs[0].ToolResult? then [Tool(bs[0].id, FirstText(bs[0].parts))] else []) + ToolMessages(bs[1..])
  }

  // ----- One message -----

  function BlockParts(b: Block): seq<Part> {
    match b
    case Text(text, _, _) => [TextPiece(text)]
    case Image(Base64(data)) => [ImagePiece(data)]
    case Document(Base64(data), _) => [FilePiece(data)]
    case Document(Plain(data), title) => [TextPiece((if title != "" then "[" + title + "]\n" else "") + data)]
    case _ => []
  }

  function Parts(bs: seq<Block>): seq<Part> {
    if bs == [] then [] else BlockParts(bs[0]) + Parts(bs[1..])
  }

  predicate OnlyResults(bs: seq<Block>) {
    forall i :: 0 <= i < |bs| ==> bs[i].ToolResult?
  }

  function UserMessage(bs: seq<Block>): ChatMessage {
    var parts := Parts(bs);
    if |parts| == 1 && parts[0].TextPiece? then User(parts[0].text, [])
    else User("", parts)
  }

  function ConvertUser(bs: seq<Block>): seq<ChatMessage> {
    if OnlyResults(bs) && ToolMessages(bs) != [] then ToolMessages(bs)
    else [UserMessage(bs)] + ToolMessages(bs)
  }

  /** A message known only by its JSON: loaded from memory, or built without content. */
  function ConvertRaw(m: Message): seq<ChatMessage> {
    if m.Unreadable? then []
    else if m.role == ASSISTANT then [Assistant(Join(Texts(m.content)), Calls(m.content))] + ToolMessages(m.content)
    else if m.role == USER then
      (if ToolMessages(m.content) != [] then ToolMessages(m.content) else [User(Join(Texts(m.content)), [])])
    else [Other(m.role, Join(Texts(m.content)))]
  }

  function ConvertOne(m: Message): seq<ChatMessage> {
    if m.Unreadable? || m.loaded || m.content == [] then ConvertRaw(m)
    else if m.role == USER then ConvertUser(m.content)
    else if m.role == ASSISTANT then [Assistant(Join(Texts(m.content)), Calls(m.content))]
    else [Other(m.role, Join(Texts(m.content)))]
  }

  function ConvertAll(h: seq<Message>): seq<ChatMessage> {
    if h == [] then [] else ConvertOne(h[0]) + ConvertAll(h[1..])
  }

  function Convert(system: string, h: seq<Message>): seq<ChatMessage> {
    (if system != "" then [System(system)] else []) + ConvertAll(h)
  }

  // ----- The conversion loops -----

  method CollectToolMessages(bs: seq<Block>) returns (msgs: seq<ChatMessage>)
    ensures msgs == ToolMessages(bs)
  {
    msgs := [];
    for i := 0 to |bs|
      invariant msgs + ToolMessages(bs[i..]) == ToolMessages(bs)
    {
      assert bs[i..][1..] == bs[i + 1..];
      if bs[i].ToolResult? {
        msgs := msgs + [Tool(bs[i].id, FirstText(bs[i].parts))];
      }
    }
    assert msgs + [] == msgs;
  }

  method CollectParts(bs: seq<Block>) returns (parts: seq<Part>)
    ensures parts == Parts(bs)
  {
    parts := [];
    for i := 0 to |bs|
      invariant parts + Parts(bs[i..]) == Parts(bs)
    {
      assert bs[i..][1..] == bs[i + 1..];
      assert (parts + BlockParts(bs[i])) + Parts(bs[i + 1..]) == parts + (BlockParts(bs[i]) + Parts(bs[i + 1..]));
      parts := parts + BlockParts(bs[i]);
    }
    assert parts + [] == parts;
  }

  method CollectTextsAndCalls(bs: seq<Block>) returns (textParts: seq<string>, toolCalls: seq<ToolCall>)
    ensures textParts == Texts(bs) && toolCalls == Calls(bs)
  {
    textParts, toolCalls := [], [];
    for i := 0 to |bs|
      invariant textParts + Texts(bs[i..]) == Texts(bs)
      invariant toolCalls + Calls(bs[i..]) == Calls(bs)
    {
      assert bs[i..][1..] == bs[i + 1..];
      if bs[i].Text? {
        textParts := textParts + [bs[i].text];
      } else if bs[i].ToolUse? {
        toolCalls := toolCalls + [ToolCall(bs[i].id, bs[i].name, Args(bs[i].input))];
      }
    }
    assert textParts + [] == textParts && toolCalls + [] == toolCalls;
  }

  method ConvertUserMessages(bs: seq<Block>) returns (msgs: seq<ChatMessage>)
    ensures msgs == ConvertUser(bs)
  {
    var others := 0;
    for i := 0 to |bs|
      invariant 0 <= others <= i
      invariant others == 0 <==> OnlyResults(bs[..i])
    {
      assert bs[..i + 1] == bs[..i] + [bs[i]];
      if !bs[i].ToolResult? {
        others := others + 1;
        assert !bs[..i + 1][i].ToolResult?;
      }
    }
    assert bs[..|bs|] == bs;
    var toolResults := CollectToolMessages(bs);
    if |toolResults| > 0 && others == 0 {
      return toolResults;
    }
    var parts := CollectParts(bs);
    var msg;
    if |parts| == 1 && parts[0].TextPiece? {
      msg := User(parts[0].text, []);
    } else {
      msg := User("", parts);
    }
    return [msg] + toolResults;
  }

  method RawMessageToOpenRouter(m: Message) returns (msgs: seq<ChatMessage>)
    ensures msgs == ConvertRaw(m)
  {
    if m.Unreadable? {
      return [];
    }
    var textParts, toolCalls := CollectTextsAndCalls(m.content);
    var toolMessages := CollectToolMessages(m.content);
    if m.role == ASSISTANT {
      return [Assistant(Join(textParts), toolCalls)] + toolMessages;
    }
    if m.role == USER {
      if |toolMessages| > 0 {
        return toolMessages;
      }
      return [User(Join(textParts), [])];
    }
    return [Other(m.role, Join(textParts))];
  }

  method ConvertMessages(system: string, history: seq<Message>) returns (msgs: seq<ChatMessage>)
    ensures msgs == Convert(system, history)
  {
    msgs := [];
    if system != "" {
      msgs := [System(system)];
    }
    for i := 0 to |history|
      invariant Convert(system, history) == msgs + ConvertAll(history[i..])
    {
      assert history[i..][1..] == history[i + 1..];
      var converted := ConvertMessage(history[i]);
      Strings.AppendMany(msgs, converted, ConvertAll(history[i + 1..]));
      msgs := msgs + converted;
    }
    assert msgs + [] == msgs;
  }

  /** The body of the conversion loop. */
  method ConvertMessage(m: Message) returns (converted: seq<ChatMessage>)
    ensures converted == ConvertOne(m)
  {
    if m.Unreadable? || m.loaded || m.content == [] {
      converted := RawMessageToOpenRouter(m);
    } else if m.role == USER {
      converted := ConvertUserMessages(m.content);
    } else {
      var textParts, toolCalls := CollectTextsAndCalls(m.content);
      var text := Join(textParts);
      converted := [if m.role == ASSISTANT then Assistant(text, toolCalls) else Other(m.role, text)];
    }
  }

  // ----- Every id survives, once and in order -----

  datatype ToolId = CallOf(id: string) | ResultOf(id: string)

  function CallsIds(calls: seq<ToolCall>): seq<ToolId> {
    if calls == [] then [] else [CallOf(calls[0].id)] + CallsIds(calls[1..])
  }

  function IdsIn(msgs: seq<ChatMessage>): seq<ToolId> {
    if msgs == [] then []
    else
      (match msgs[0]
       case Assistant(_, calls) => CallsIds(calls)
       case Tool(id, _) => [ResultOf(id)]
       case _ => []) + IdsIn(msgs[1..])
  }

  function BlockIds(bs: seq<Block>): seq<ToolId> {
    if bs == [] then []
    else
      (if bs[0].ToolUse? then [CallOf(bs[0].id)] else if bs[0].ToolResult? then [ResultOf(bs[0].id)] else [])
      + BlockIds(bs[1..])
  }

  function HistoryIds(h: seq<Message>): seq<ToolId> {
    if h == [] then [] else BlockIds(Blocks(h[0])) + HistoryIds(h[1..])
  }

  lemma {:induction false} IdsInAppend(a: seq<ChatMessage>, b: seq<ChatMessage>)
    ensures IdsIn(a + b) == IdsIn(a) + IdsIn(b)
  {
    if a == [] {
      assert a + b == b;
    } else {
      assert (a + b)[1..] == a[1..] + b;
      IdsInAppend(a[1..], b);
    }
  }

  lemma {:induction false} CallsKeepIds(bs: seq<Block>)
    requires ResultIds(bs) == []
    ensures CallsIds(Calls(bs)) == BlockIds(bs) && ToolMessages(bs) == []
  {
    if bs != [] {
      CallsKeepIds(bs[1..]);
      if bs[0].ToolUse? {
        assert Calls(bs)[1..] == Calls(bs[1..]);
      } else {
        assert Calls(bs) == Calls(bs[1..]);
      }
    }
  }

  lemma {:induction false} ToolMessagesKeepIds(bs: seq<Block>)
    requires UseIds(bs) == []
    ensures IdsIn(ToolMessages(bs)) == BlockIds(bs)
  {
    if bs != [] {
      ToolMessagesKeepIds(bs[1..]);
      if bs[0].ToolResult? {
        assert ToolMessages(bs)[1..] == ToolMessages(bs[1..]);
      } else {
        assert ToolMessages(bs) == ToolMessages(bs[1..]);
      }
    }
  }

  lemma {:induction false} NoIds(m: Message)
    ensures Uses(m) == multiset{} <==> UseIds(Blocks(m)) == []
    ensures Results(m) == multiset{} <==> ResultIds(Blocks(m)) == []
  {
    var u, r := UseIds(Blocks(m)), ResultIds(Blocks(m));
    assert u != [] ==> u[0] in Uses(m);
    assert r != [] ==> r[0] in Results(m);
  }

  lemma {:induction false} PlainBlocksHaveNoIds(bs: seq<Block>)
    requires UseIds(bs) == [] && ResultIds(bs) == []
    ensures BlockIds(bs) == []
  {
    if bs != [] {
      PlainBlocksHaveNoIds(bs[1..]);
    }
  }

  /** One message, fresh or loaded, keeps its call and result ids. */
  lemma {:induction false} ConvertOneKeepsIds(m: Message)
    requires Disciplined(m)
    ensures IdsIn(ConvertOne(m)) == BlockIds(Blocks(m))
  {
    NoIds(m);
    if m.Turn? {
      if m.role == ASSISTANT {
        AssistantKeepsIds(m);
      } else if m.role == USER {
        UserKeepsIds(m);
      } else {
        PlainBlocksHaveNoIds(m.content);
        PlainIds(Other(m.role, Join(Texts(m.content))));
      }
    }
  }

  lemma {:induction false} AssistantKeepsIds(m: Message)
    requires m.Turn? && m.role == ASSISTANT && ResultIds(m.content) == []
    ensures IdsIn(ConvertOne(m)) == BlockIds(m.content)
  {
    CallsKeepIds(m.content);
    var a := Assistant(Join(Texts(m.content)), Calls(m.content));
    assert [a] + [] == [a] && [a][1..] == [];
    assert ConvertOne(m) == [a];
    assert CallsIds(a.calls) + [] == CallsIds(a.calls);
  }

  lemma {:induction false} UserKeepsIds(m: Message)
    requires m.Turn? && m.role == USER && UseIds(m.content) == []
    ensures IdsIn(ConvertOne(m)) == BlockIds(m.content)
  {
    var bs := m.content;
    ToolMessagesKeepIds(bs);
    IdsInAppend([UserMessage(bs)], ToolMessages(bs));
    PlainIds(UserMessage(bs));
    PlainIds(User(Join(Texts(bs)), []));
  }

  lemma {:induction false} PlainIds(c: ChatMessage)
    requires !c.Assistant? && !c.Tool?
    ensures IdsIn([c]) == []
  {
    assert [c][1..] == [];
  }

  /** Every tool-call and tool-result id of the history appears in the translation exactly as often as
      in the history and in the same order, whether a message is fresh or was loaded. */
  lemma {:induction false} ConvertKeepsIds(system: string, h: seq<Message>)
    requires forall i :: 0 <= i < |h| ==> Disciplined(h[i])
    ensures IdsIn(Convert(system, h)) == HistoryIds(h)
  {
    ConvertAllKeepsIds(h);
    var lead := if system != "" then [System(system)] else [];
    PlainIds(System(system));
    IdsInAppend(lead, ConvertAll(h));
  }

  lemma {:induction false} ConvertAllKeepsIds(h: seq<Message>)
    requires forall i :: 0 <= i < |h| ==> Disciplined(h[i])
    ensures IdsIn(ConvertAll(h)) == HistoryIds(h)
  {
    if h != [] {
      ConvertOneKeepsIds(h[0]);
      ConvertAllKeepsIds(h[1..]);
      IdsInAppend(ConvertOne(h[0]), ConvertAll(h[1..]));
    }
  }

  // ----- Answers follow their calls directly -----

  predicate AllTools(msgs: seq<ChatMessage>) {
    forall i :: 0 <= i < |msgs| ==> msgs[i].Tool?
  }

  function AnswerIds(msgs: seq<ChatMessage>): multiset<string>
    requires AllTools(msgs)
  {
    if msgs == [] then multiset{} else multiset{msgs[0].id} + AnswerIds(msgs[1..])
  }

  function AskedIds(calls: seq<ToolCall>): multiset<string> {
    if calls == [] then multiset{} else multiset{calls[0].id} + AskedIds(calls[1..])
  }

  /** Every assistant message with calls, unless it is the very last message, is followed directly by
      tool messages answering exactly its calls; there are no other tool messages. */
  predicate ChatPaired(msgs: seq<ChatMessage>)
    decreases |msgs|
  {
    if msgs == [] then true
    else if msgs[0].Tool? then false
    else if msgs[0].Assistant? && msgs[0].calls != [] then
      var n := |msgs[0].calls|;
      |msgs| == 1 ||
      (|msgs| > n && AllTools(msgs[1..n + 1]) && AnswerIds(msgs[1..n + 1]) == AskedIds(msgs[0].calls)
       && ChatPaired(msgs[n + 1..]))
    else ChatPaired(msgs[1..])
  }

  /** A fresh user turn that holds tool results next to other content. */
  predicate Mixed(m: Message) {
    m.Turn? && !m.loaded && m.role == USER && Results(m) != multiset{} && !OnlyResults(m.content)
  }

  predicate NoneMixed(h: seq<Message>) {
    forall i :: 0 <= i < |h| ==> !Mixed(h[i])
  }

  lemma {:induction false} ToolMessagesAnswer(bs: seq<Block>)
    ensures AllTools(ToolMessages(bs))
    ensures AnswerIds(ToolMessages(bs)) == multiset(ResultIds(bs))
    ensures |ToolMessages(bs)| == |ResultIds(bs)|
  {
    if bs != [] {
      ToolMessagesAnswer(bs[1..]);
      if bs[0].ToolResult? {
        assert ToolMessages(bs)[1..] == ToolMessages(bs[1..]);
        assert ResultIds(bs) == [bs[0].id] + ResultIds(bs[1..]);
      } else {
        assert ToolMessages(bs) == ToolMessages(bs[1..]);
        assert ResultIds(bs) == ResultIds(bs[1..]);
      }
    }
  }

  lemma {:induction false} CallsAsk(bs: seq<Block>)
    ensures AskedIds(Calls(bs)) == multiset(UseIds(bs))
    ensures |Calls(bs)| == |UseIds(bs)|
  {
    if bs != [] {
      CallsAsk(bs[1..]);
      if bs[0].ToolUse? {
        assert Calls(bs)[1..] == Calls(bs[1..]);
        assert UseIds(bs) == [bs[0].id] + UseIds(bs[1..]);
      } else {
        assert Calls(bs) == Calls(bs[1..]);
        assert UseIds(bs) == UseIds(bs[1..]);
      }
    }
  }

  /** A message without calls or results becomes at most one plain chat message. */
  lemma {:induction false} PlainMessageConverts(m: Message)
    requires Uses(m) == multiset{} && Results(m) == multiset{}
    ensures |ConvertOne(m)| <= 1 && !Mixed(m)
    ensures ConvertOne(m) != [] ==>
              var c := ConvertOne(m)[0]; !c.Tool? && (c.Assistant? ==> c.calls == [])
  {
    NoIds(m);
    if m.Turn? {
      CallsAsk(m.content);
      ToolMessagesAnswer(m.content);
      var tools, calls := ToolMessages(m.content), Calls(m.content);
      assert tools == [] && calls == [];
      NoToolsConverts(m);
    }
  }

  lemma {:induction false} NoToolsConverts(m: Message)
    requires m.Turn? && ToolMessages(m.content) == [] && Calls(m.content) == []
    ensures |ConvertOne(m)| == 1
    ensures var c := ConvertOne(m)[0]; !c.Tool? && (c.Assistant? ==> c.calls == [])
  {
  }

  lemma {:induction false} PlainChatHead(head: seq<ChatMessage>, rest: seq<ChatMessage>)
    requires |head| <= 1
    requires head != [] ==> !head[0].Tool? && (head[0].Assistant? ==> head[0].calls == [])
    ensures ChatPaired(head + rest) <==> ChatPaired(rest)
  {
    if head == [] {
      assert head + rest == rest;
    } else {
      assert (head + rest)[1..] == rest;
    }
  }

  lemma {:induction false} AssistantConverts(m: Message)
    requires Disciplined(m) && Uses(m) != multiset{}
    ensures Results(m) == multiset{} && !Mixed(m)
    ensures ConvertOne(m) == [Assistant(Join(Texts(m.content)), Calls(m.content))]
    ensures Calls(m.content) != [] && AskedIds(Calls(m.content)) == Uses(m) && |Calls(m.content)| == |Uses(m)|
  {
    NoIds(m);
    CallsAsk(m.content);
    ToolMessagesAnswer(m.content);
    assert ToolMessages(m.content) == [];
  }

  /** A turn of results becomes tool messages only, unless it is mixed: then its text comes first. */
  lemma {:induction false} ResultsConvert(m: Message)
    requires Disciplined(m) && Results(m) != multiset{}
    ensures Uses(m) == multiset{}
    ensures !Mixed(m) ==>
              AllTools(ConvertOne(m)) && AnswerIds(ConvertOne(m)) == Results(m) && |ConvertOne(m)| == |Results(m)|
    ensures Mixed(m) ==> |ConvertOne(m)| > 0 && ConvertOne(m)[0].User?
  {
    NoIds(m);
    ToolMessagesAnswer(m.content);
  }

  lemma {:induction false} AnsweredPair(a: ChatMessage, tools: seq<ChatMessage>, rest: seq<ChatMessage>)
    requires a.Assistant? && a.calls != [] && AllTools(tools)
    requires |tools| == |a.calls| && AnswerIds(tools) == AskedIds(a.calls)
    ensures ChatPaired([a] + tools + rest) <==> ChatPaired(rest)
  {
    var msgs := [a] + tools + rest;
    var n := |a.calls|;
    assert msgs[1..n + 1] == tools && msgs[n + 1..] == rest;
  }

  lemma {:induction false} LateAnswers(a: ChatMessage, next: seq<ChatMessage>, rest: seq<ChatMessage>)
    requires a.Assistant? && a.calls != [] && next != [] && !next[0].Tool?
    ensures !ChatPaired([a] + next + rest)
  {
    var msgs := [a] + next + rest;
    var n := |a.calls|;
    if |msgs| > n {
      assert msgs[1..n + 1][0] == next[0];
    }
  }

  lemma {:induction false} NoneMixedTail(h: seq<Message>, n: nat)
    requires n <= |h| && NoneMixed(h[..n])
    ensures NoneMixed(h) <==> NoneMixed(h[n..])
  {
    if NoneMixed(h) {
      assert forall i :: 0 <= i < |h[n..]| ==> h[n..][i] == h[n + i];
    }
    if NoneMixed(h[n..]) {
      forall i | 0 <= i < |h| ensures !Mixed(h[i]) {
        if i < n { assert h[..n][i] == h[i]; } else { assert h[n..][i - n] == h[i]; }
      }
    }
  }

  /** A well-paired transcript translates to a well-paired chat exactly when no fresh user turn mixes
      tool results with other content. */
  lemma {:induction false} ConvertKeepsPairing(h: seq<Message>)
    requires WellPaired(h)
    ensures ChatPaired(ConvertAll(h)) <==> NoneMixed(h)
    decreases |h|
  {
    if h != [] {
      var m, rest := h[0], h[1..];
      assert h == [m] + rest;
      PairedCons(multiset{}, m, rest);
      assert h[..1] == [m];
      if Uses(m) == multiset{} {
        PlainMessageConverts(m);
        PlainChatHead(ConvertOne(m), ConvertAll(rest));
        ConvertKeepsPairing(rest);
        NoneMixedTail(h, 1);
      } else {
        AssistantConverts(m);
        NoneMixedTail(h, 1);
        if rest == [] {
          assert ConvertAll(h) == ConvertOne(m) + [];
          assert ConvertAll(h) == ConvertOne(m);
        } else {
          AnswerStep(m, rest);
        }
      }
    }
  }

  /** Two successive messages, the first translated to a single chat message. */
  lemma {:induction false} ConvertTwo(m: Message, rest: seq<Message>)
    requires |ConvertOne(m)| == 1 && rest != []
    ensures ConvertOne(m) + ConvertAll(rest) == [ConvertOne(m)[0]] + ConvertOne(rest[0]) + ConvertAll(rest[1..])
  {
    hide ConvertOne;
    var tail := ConvertAll(rest[1..]);
    assert ConvertAll(rest) == ConvertOne(rest[0]) + tail;
    hide ConvertAll;
    assert ConvertOne(m) == [ConvertOne(m)[0]];
    Strings.AppendMany(ConvertOne(m), ConvertOne(rest[0]), tail);
  }

  lemma {:induction false} NoneMixedCons(h: seq<Message>)
    requires h != [] && !Mixed(h[0])
    ensures NoneMixed(h) <==> NoneMixed(h[1..])
  {
    assert h[..1] == [h[0]];
    hide Mixed;
    NoneMixedTail(h, 1);
  }

  lemma {:induction false} AnswerStep(m: Message, rest: seq<Message>)
    requires Disciplined(m) && Uses(m) != multiset{} && rest != [] && PairedFrom(Uses(m), rest)
    ensures ChatPaired(ConvertOne(m) + ConvertAll(rest)) <==> NoneMixed(rest)
    decreases |rest|
  {
    hide *;
    var u, tail := rest[0], rest[1..];
    assert rest == [u] + tail;
    PairedCons(Uses(m), u, tail);
    if Mixed(u) {
      MixedAnswer(m, rest);
    } else {
      AnswersFollow(m, rest);
      TailIsPaired(u, tail);
      ConvertKeepsPairing(tail);
      NoneMixedCons(rest);
    }
  }

  lemma {:induction false} TailIsPaired(u: Message, tail: seq<Message>)
    requires Uses(u) == multiset{} && PairedFrom(Uses(u), tail)
    ensures WellPaired(tail)
  {
  }

  lemma {:induction false} MixedAnswer(m: Message, rest: seq<Message>)
    requires Disciplined(m) && Uses(m) != multiset{} && rest != []
    requires Disciplined(rest[0]) && Results(rest[0]) == Uses(m) && Mixed(rest[0])
    ensures !ChatPaired(ConvertOne(m) + ConvertAll(rest)) && !NoneMixed(rest)
  {
    AssistantConverts(m);
    ResultsConvert(rest[0]);
    ConvertTwo(m, rest);
    LateAnswers(ConvertOne(m)[0], ConvertOne(rest[0]), ConvertAll(rest[1..]));
  }

  lemma {:induction false} AnswersFollow(m: Message, rest: seq<Message>)
    requires Disciplined(m) && Uses(m) != multiset{} && rest != []
    requires Disciplined(rest[0]) && Results(rest[0]) == Uses(m) && !Mixed(rest[0])
    ensures Uses(rest[0]) == multiset{}
    ensures ChatPaired(ConvertOne(m) + ConvertAll(rest)) <==> ChatPaired(ConvertAll(rest[1..]))
  {
    AssistantConverts(m);
    ResultsConvert(rest[0]);
    ConvertTwo(m, rest);
    AnswersInPlace(m, rest[0], ConvertAll(rest[1..]));
  }

  lemma {:induction false} AnswersInPlace(m: Message, u: Message, rest: seq<ChatMessage>)
    requires Disciplined(m) && Uses(m) != multiset{} && Disciplined(u) && Results(u) == Uses(m) && !Mixed(u)
    ensures |ConvertOne(m)| == 1
    ensures ChatPaired([ConvertOne(m)[0]] + ConvertOne(u) + rest) <==> ChatPaired(rest)
  {
    AssistantConverts(m);
    ResultsConvert(u);
    AnsweredPair(ConvertOne(m)[0], ConvertOne(u), rest);
  }
}
