/** What arrives at the second provider: names, arguments, results and texts of a history, in order
    (internal/provider/openrouter.go: convertMessages and below). */
module Translation {
  import opened Filters
  import opened Lines
  import opened OpenRouter
  import Strings
  import opened Transcript

  // ----- The calls and results of a history and of a chat -----

  function UseBlocks(bs: seq<Block>): (us: seq<Block>)
    ensures forall k :: 0 <= k < |us| ==> us[k].ToolUse?
  {
    if bs == [] then [] else (if bs[0].ToolUse? then [bs[0]] else []) + UseBlocks(bs[1..])
  }

  function ResultBlocks(bs: seq<Block>): (rs: seq<Block>)
    ensures forall k :: 0 <= k < |rs| ==> rs[k].ToolResult?
  {
    if bs == [] then [] else (if bs[0].ToolResult? then [bs[0]] else []) + ResultBlocks(bs[1..])
  }

  function HistoryUses(h: seq<Message>): (us: seq<Block>)
    ensures forall k :: 0 <= k < |us| ==> us[k].ToolUse?
  {
    if h == [] then [] else UseBlocks(Blocks(h[0])) + HistoryUses(h[1..])
  }

  function HistoryResults(h: seq<Message>): (rs: seq<Block>)
    ensures forall k :: 0 <= k < |rs| ==> rs[k].ToolResult?
  {
    if h == [] then [] else ResultBlocks(Blocks(h[0])) + HistoryResults(h[1..])
  }

  function ChatCalls(msgs: seq<ChatMessage>): seq<ToolCall> {
    if msgs == [] then [] else (if msgs[0].Assistant? then msgs[0].calls else []) + ChatCalls(msgs[1..])
  }

  function ChatAnswers(msgs: seq<ChatMessage>): (ts: seq<ChatMessage>)
    ensures forall k :: 0 <= k < |ts| ==> ts[k].Tool?
  {
    if msgs == [] then [] else (if msgs[0].Tool? then [msgs[0]] else []) + ChatAnswers(msgs[1..])
  }

  /** The call says what the block says: same id, same name, the input as the encoder spells it. */
  predicate SameCall(c: ToolCall, b: Block)
    requires b.ToolUse?
  {
    && c.id == b.id && c.name == b.name
    && match b.input
       case Json(_, compact, _) => c.args == compact
       case Empty => c.args == "null"
       case Broken(_) => c.args == ""
  }

  /** The answer has the id of the result and its first text, "" if it has none. */
  predicate SameAnswer(c: ChatMessage, b: Block)
    requires b.ToolResult? && c.Tool?
  {
    && c.id == b.id
    && if exists p :: 0 <= p < |b.parts| && b.parts[p].TextPart?
       then exists p :: 0 <= p < |b.parts| && b.parts[p] == TextPart(c.text) && NoTextBefore(b.parts, p)
       else c.text == ""
  }

  predicate NoTextBefore(parts: seq<ResultPart>, p: nat)
    requires p <= |parts|
  {
    forall q :: 0 <= q < p ==> !parts[q].TextPart?
  }

  predicate SameCalls(cs: seq<ToolCall>, us: seq<Block>)
    requires forall k :: 0 <= k < |us| ==> us[k].ToolUse?
  {
    |cs| == |us| && forall k :: 0 <= k < |us| ==> SameCall(cs[k], us[k])
  }

  predicate SameAnswers(ts: seq<ChatMessage>, rs: seq<Block>)
    requires forall k :: 0 <= k < |ts| ==> ts[k].Tool?
    requires forall k :: 0 <= k < |rs| ==> rs[k].ToolResult?
  {
    |ts| == |rs| && forall k :: 0 <= k < |rs| ==> SameAnswer(ts[k], rs[k])
  }

  // ----- One message -----

  lemma {:induction false} CallsSayBlocks(bs: seq<Block>)
    ensures SameCalls(Calls(bs), UseBlocks(bs))
  {
    if bs != [] {
      CallsSayBlocks(bs[1..]);
      if !bs[0].ToolUse? {
        assert Calls(bs) == Calls(bs[1..]) && UseBlocks(bs) == UseBlocks(bs[1..]);
      }
    }
  }

  lemma {:induction false} FirstTextIsFirst(id: string, parts: seq<ResultPart>, isError: bool)
    ensures SameAnswer(Tool(id, FirstText(parts)), ToolResult(id, parts, isError))
  {
    if parts != [] {
      var rest := parts[1..];
      FirstTextIsFirst(id, rest, isError);
      if parts[0].TextPart? {
        assert NoTextBefore(parts, 0);
      } else if exists p :: 0 <= p < |rest| && rest[p].TextPart? {
        var p :| 0 <= p < |rest| && rest[p] == TextPart(FirstText(rest)) && NoTextBefore(rest, p);
        assert parts[p + 1] == rest[p];
        assert forall q :: 0 < q < p + 1 ==> parts[q] == rest[q - 1];
        assert NoTextBefore(parts, p + 1);
      } else {
        assert forall p :: 0 < p < |parts| ==> parts[p] == rest[p - 1];
      }
    }
  }

  lemma {:induction false} ToolMessagesSayBlocks(bs: seq<Block>)
    ensures ChatAnswers(ToolMessages(bs)) == ToolMessages(bs) && ChatCalls(ToolMessages(bs)) == []
    ensures SameAnswers(ChatAnswers(ToolMessages(bs)), ResultBlocks(bs))
  {
    if bs != [] {
      hide SameAnswer;
      ToolMessagesSayBlocks(bs[1..]);
      if bs[0].ToolResult? {
        FirstTextIsFirst(bs[0].id, bs[0].parts, bs[0].isError);
        assert ToolMessages(bs)[1..] == ToolMessages(bs[1..]);
      } else {
        assert ToolMessages(bs) == ToolMessages(bs[1..]) && ResultBlocks(bs) == ResultBlocks(bs[1..]);
      }
    }
  }

  lemma {:induction false} ChatAppend(a: seq<ChatMessage>, b: seq<ChatMessage>)
    ensures ChatCalls(a + b) == ChatCalls(a) + ChatCalls(b)
    ensures ChatAnswers(a + b) == ChatAnswers(a) + ChatAnswers(b)
  {
    if a == [] {
      assert a + b == b;
    } else {
      var c, rest := a[0], a[1..];
      assert (a + b)[1..] == rest + b;
      ChatAppend(rest, b);
      Strings.AppendMany(if c.Assistant? then c.calls else [], ChatCalls(rest), ChatCalls(b));
      Strings.AppendMany(if c.Tool? then [c] else [], ChatAnswers(rest), ChatAnswers(b));
    }
  }

  lemma {:induction false} OneChat(c: ChatMessage)
    ensures ChatCalls([c]) == if c.Assistant? then c.calls else []
    ensures ChatAnswers([c]) == if c.Tool? then [c] else []
  {
    assert [c][1..] == [];
  }

  lemma {:induction false} NoBlocksOfKind(m: Message)
    ensures Uses(m) == multiset{} ==> UseBlocks(Blocks(m)) == []
    ensures Results(m) == multiset{} ==> ResultBlocks(Blocks(m)) == []
  {
    NoIds(m);
    KindsHaveIds(Blocks(m));
  }

  lemma {:induction false} KindsHaveIds(bs: seq<Block>)
    ensures |UseBlocks(bs)| == |UseIds(bs)| && |ResultBlocks(bs)| == |ResultIds(bs)|
  {
    if bs != [] {
      KindsHaveIds(bs[1..]);
    }
  }

  predicate Arrives(msgs: seq<ChatMessage>, bs: seq<Block>) {
    SameCalls(ChatCalls(msgs), UseBlocks(bs)) && SameAnswers(ChatAnswers(msgs), ResultBlocks(bs))
  }

  /** A message that holds no calls and no answers, in front of the answers to a turn without calls. */
  lemma {:induction false} AnswersArrive(lead: seq<ChatMessage>, bs: seq<Block>)
    requires UseBlocks(bs) == [] && (lead == [] || (|lead| == 1 && !lead[0].Assistant? && !lead[0].Tool?))
    ensures Arrives(lead + ToolMessages(bs), bs)
  {
    ToolMessagesSayBlocks(bs);
    hide SameAnswer, SameCall, ToolMessages;
    ChatAppend(lead, ToolMessages(bs));
    if lead != [] {
      OneChat(lead[0]);
      assert lead == [lead[0]];
    }
  }

  lemma {:induction false} CallsArrive(text: string, bs: seq<Block>)
    requires ResultBlocks(bs) == []
    ensures Arrives([Assistant(text, Calls(bs))], bs) && ToolMessages(bs) == []
  {
    CallsSayBlocks(bs);
    OneChat(Assistant(text, Calls(bs)));
    ToolMessagesSayBlocks(bs);
  }

  /** One message, fresh or loaded: its calls and results arrive as they are. */
  lemma {:induction false} MessageArrives(m: Message)
    requires Disciplined(m)
    ensures Arrives(ConvertOne(m), Blocks(m))
  {
    var bs := Blocks(m);
    NoBlocksOfKind(m);
    hide Arrives, UseBlocks, ResultBlocks, Calls, ToolMessages, Texts, Join, Parts;
    if m.Unreadable? {
      NothingArrives();
    } else if m.role == ASSISTANT {
      CallsArrive(Join(Texts(bs)), bs);
      assert [Assistant(Join(Texts(bs)), Calls(bs))] + [] == [Assistant(Join(Texts(bs)), Calls(bs))];
    } else {
      AnswersArrive([], bs);
      AnswersArrive([UserMessage(bs)], bs);
      AnswersArrive([User(Join(Texts(bs)), [])], bs);
      AnswersArrive([Other(m.role, Join(Texts(bs)))], bs);
      NoAnswers(bs);
      assert [] + ToolMessages(bs) == ToolMessages(bs);
      assert forall c: ChatMessage :: [c] + [] == [c];
    }
  }

  lemma {:induction false} NoAnswers(bs: seq<Block>)
    ensures ResultBlocks(bs) == [] <==> ToolMessages(bs) == []
  {
    ToolMessagesSayBlocks(bs);
  }

  lemma {:induction false} NothingArrives()
    ensures Arrives([], [])
  {
  }

  lemma {:induction false} SameCallsAppend(a: seq<ToolCall>, us: seq<Block>, b: seq<ToolCall>, vs: seq<Block>)
    requires forall k :: 0 <= k < |us| ==> us[k].ToolUse?
    requires forall k :: 0 <= k < |vs| ==> vs[k].ToolUse?
    requires SameCalls(a, us) && SameCalls(b, vs)
    ensures SameCalls(a + b, us + vs)
  {
    hide SameCall;
  }

  lemma {:induction false} SameAnswersAppend(a: seq<ChatMessage>, rs: seq<Block>, b: seq<ChatMessage>, qs: seq<Block>)
    requires (forall k :: 0 <= k < |a| ==> a[k].Tool?) && (forall k :: 0 <= k < |b| ==> b[k].Tool?)
    requires forall k :: 0 <= k < |rs| ==> rs[k].ToolResult?
    requires forall k :: 0 <= k < |qs| ==> qs[k].ToolResult?
    requires SameAnswers(a, rs) && SameAnswers(b, qs)
    ensures SameAnswers(a + b, rs + qs)
  {
    hide SameAnswer;
  }

  // ----- A whole history -----

  /** The calls of the chat are the tool uses of the history, in order, with their ids, names and arguments; its
      tool messages are the tool results, in order, with their ids and texts. */
  lemma {:induction false} ConvertKeepsCalls(system: string, h: seq<Message>)
    requires forall i :: 0 <= i < |h| ==> Disciplined(h[i])
    ensures SameCalls(ChatCalls(Convert(system, h)), HistoryUses(h))
    ensures SameAnswers(ChatAnswers(Convert(system, h)), HistoryResults(h))
  {
    ConvertAllKeepsCalls(h);
    OneChat(System(system));
    ChatAppend([System(system)], ConvertAll(h));
    hide SameCalls, SameAnswers, ConvertAll, ChatCalls, ChatAnswers;
    assert [] + ConvertAll(h) == ConvertAll(h);
    assert [] + ChatCalls(ConvertAll(h)) == ChatCalls(ConvertAll(h));
    assert [] + ChatAnswers(ConvertAll(h)) == ChatAnswers(ConvertAll(h));
  }

  lemma {:induction false} ConvertAllKeepsCalls(h: seq<Message>)
    requires forall i :: 0 <= i < |h| ==> Disciplined(h[i])
    ensures SameCalls(ChatCalls(ConvertAll(h)), HistoryUses(h))
    ensures SameAnswers(ChatAnswers(ConvertAll(h)), HistoryResults(h))
  {
    if h != [] {
      hide SameCalls, SameAnswers, UseBlocks, ResultBlocks, ConvertOne;
      var rest := h[1..];
      MessageArrives(h[0]);
      ConvertAllKeepsCalls(rest);
      ChatAppend(ConvertOne(h[0]), ConvertAll(rest));
      SameCallsAppend(ChatCalls(ConvertOne(h[0])), UseBlocks(Blocks(h[0])), ChatCalls(ConvertAll(rest)),
                      HistoryUses(rest));
      SameAnswersAppend(ChatAnswers(ConvertOne(h[0])), ResultBlocks(Blocks(h[0])), ChatAnswers(ConvertAll(rest)),
                        HistoryResults(rest));
    } else {
      NothingIsSame();
    }
  }

  lemma {:induction false} NothingIsSame()
    ensures SameCalls(ChatCalls(ConvertAll([])), HistoryUses([]))
    ensures SameAnswers(ChatAnswers(ConvertAll([])), HistoryResults([]))
  {
  }

  /** Messages are translated one after the other, behind the system prompt if there is one. */
  lemma {:induction false} ConvertInOrder(system: string, h: seq<Message>, m: Message)
    ensures Convert(system, []) == if system == "" then [] else [System(system)]
    ensures Convert(system, h + [m]) == Convert(system, h) + ConvertOne(m)
  {
    ConvertAllInOrder(h, m);
    hide ConvertOne, ConvertAll;
    var lead := if system != "" then [System(system)] else [];
    Strings.AppendMany(lead, ConvertAll(h), ConvertOne(m));
    assert ConvertAll([]) == [] by { NothingConverts(); }
    assert lead + [] == lead;
  }

  lemma {:induction false} NothingConverts()
    ensures ConvertAll([]) == []
  {
  }

  lemma {:induction false} ConvertAllInOrder(h: seq<Message>, m: Message)
    ensures ConvertAll(h + [m]) == ConvertAll(h) + ConvertOne(m)
  {
    hide ConvertOne;
    if h == [] {
      assert [] + [m] == [m] && [m][1..] == [];
      assert ConvertOne(m) + [] == ConvertOne(m) && [] + ConvertOne(m) == ConvertOne(m);
    } else {
      assert (h + [m])[1..] == h[1..] + [m];
      ConvertAllInOrder(h[1..], m);
      Strings.AppendMany(ConvertOne(h[0]), ConvertAll(h[1..]), ConvertOne(m));
    }
  }

  // ----- Texts and attachments -----

  predicate IsText(b: Block) {
    b.Text?
  }

  lemma {:induction false} TextsOfBlocks(bs: seq<Block>)
    ensures var ts := Filter(bs, IsText);
            |Texts(bs)| == |ts| && forall k :: 0 <= k < |ts| ==> ts[k].Text? && Texts(bs)[k] == ts[k].text
  {
    if bs != [] {
      TextsOfBlocks(bs[1..]);
    }
  }

  /** The texts are those of the text blocks, in order. */
  lemma {:induction false} TextsInOrder(bs: seq<Block>) returns (at: seq<nat>)
    ensures Positions(bs, at, IsText) && |Texts(bs)| == |at|
    ensures forall k :: 0 <= k < |at| ==> bs[at[k]].Text? && Texts(bs)[k] == bs[at[k]].text
  {
    TextsOfBlocks(bs);
    at := FilterAt(bs, IsText);
    hide Texts, Filter;
  }

  /** What a fresh user turn shows the second provider. */
  predicate IsShown(b: Block) {
    b.Text? || (b.Image? && b.source.Base64?) || (b.Document? && !b.source.Url?)
  }

  predicate Shows(p: Part, b: Block) {
    match b
    case Text(text, _, _) => p == TextPiece(text)
    case Image(source) => source.Base64? && p == ImagePiece(source.data)
    case Document(source, title) =>
      (match source
       case Base64(data) => p == FilePiece(data)
       case Plain(data) => p == TextPiece(if title == "" then data else "[" + title + "]\n" + data)
       case Url(_) => false)
    case _ => false
  }

  lemma {:induction false} BlockShows(b: Block)
    ensures |BlockParts(b)| == if IsShown(b) then 1 else 0
    ensures IsShown(b) ==> Shows(BlockParts(b)[0], b)
  {
    if b.Document? && b.source.Plain? {
      assert "" + b.source.data == b.source.data;
    }
  }

  lemma {:induction false} PartsOfBlocks(bs: seq<Block>)
    ensures AllShow(Parts(bs), Filter(bs, IsShown))
  {
    if bs != [] {
      PartsOfBlocks(bs[1..]);
      BlockShows(bs[0]);
      hide Shows, BlockParts, IsShown;
      var first, rest := BlockParts(bs[0]), Parts(bs[1..]);
      assert Parts(bs) == first + rest;
      assert Filter(bs, IsShown) == (if IsShown(bs[0]) then [bs[0]] else []) + Filter(bs[1..], IsShown);
      hide Parts, Filter;
      ShowsAppend(first, if IsShown(bs[0]) then [bs[0]] else [], rest, Filter(bs[1..], IsShown));
    }
  }

  predicate AllShow(ps: seq<Part>, bs: seq<Block>) {
    |ps| == |bs| && forall k :: 0 <= k < |bs| ==> Shows(ps[k], bs[k])
  }

  lemma {:induction false} ShowsAppend(a: seq<Part>, x: seq<Block>, b: seq<Part>, y: seq<Block>)
    requires AllShow(a, x) && AllShow(b, y)
    ensures AllShow(a + b, x + y)
  {
    hide Shows;
  }

  /** The parts of a fresh user turn show its texts and attachments, in order. */
  lemma {:induction false} PartsInOrder(bs: seq<Block>) returns (at: seq<nat>)
    ensures Positions(bs, at, IsShown) && |Parts(bs)| == |at|
    ensures forall k :: 0 <= k < |at| ==> at[k] < |bs| && Shows(Parts(bs)[k], bs[at[k]])
  {
    PartsOfBlocks(bs);
    at := FilterAt(bs, IsShown);
    hide Shows, Parts, Filter;
  }

  /** The first message that a turn becomes, if it shows anything but tool results: a loaded turn, or any but a
      user's, is one text of all its text blocks; a fresh user's turn is its texts and attachments. */
  lemma {:induction false} TurnArrives(m: Message) returns (texts: seq<string>, parts: seq<Part>)
    requires m.Turn?
    ensures texts == Texts(m.content) && parts == Parts(m.content)
    ensures m.role == "assistant" ==>
              ConvertOne(m) != [] && ConvertOne(m)[0] == Assistant(Join(texts), Calls(m.content))
    ensures m.role !in {"assistant", "user"} ==> ConvertOne(m) == [Other(m.role, Join(texts))]
    ensures m.role == "user" && (m.loaded || m.content == []) && ResultBlocks(m.content) == [] ==>
              ConvertOne(m) == [User(Join(texts), [])]
    ensures m.role == "user" && !m.loaded && |ResultBlocks(m.content)| < |m.content| ==>
              && |ConvertOne(m)| == 1 + |ResultBlocks(m.content)|
              && ConvertOne(m)[0] == (if |parts| == 1 && parts[0].TextPiece? then User(parts[0].text, [])
                                      else User("", parts))
    ensures m.role == "user" && ResultBlocks(m.content) != []
            && (m.loaded || |ResultBlocks(m.content)| == |m.content|) ==>
              ConvertOne(m) == ChatAnswers(ConvertOne(m))
  {
    texts, parts := Texts(m.content), Parts(m.content);
    ToolMessagesSayBlocks(m.content);
    NotOnlyResults(m.content);
  }

  lemma {:induction false} NotOnlyResults(bs: seq<Block>)
    ensures |ResultBlocks(bs)| <= |bs|
    ensures OnlyResults(bs) <==> |ResultBlocks(bs)| == |bs|
  {
    if bs != [] {
      NotOnlyResults(bs[1..]);
      assert OnlyResults(bs) <==> bs[0].ToolResult? && OnlyResults(bs[1..]) by {
        assert forall i :: 0 < i < |bs| ==> bs[i] == bs[1..][i - 1];
      }
    }
  }
}
