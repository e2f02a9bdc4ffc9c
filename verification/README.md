# A verified model of Kikubot

Kikubot runs one LLM agent per mailbox. This project models the parts of it that keep state across mails
and runs, and proves what they keep. To verify, run
`dafny verify dfyconfig.toml`.

| part | modules |
|---|---|
| Conversation transcript: the agent loop, its memory file, trimming, compression, translation to a second provider | `Transcript`, `AgentLoop`, `AgentTurns`, `Sessions`, `SessionMemory`, `MemoryLoad`, `LoadContent`, `Sizes`, `Trimming`, `Compression`, `ToolResultText`, `OpenRouter`, `Translation`, `Handover` |
| Snoozes and watchdogs: the store, nudging, the drain loop | `SnoozeStore`, `Watchdog`, `Nudging`, `Drain` |
| Mail: the poll loop with its retries, threading and auto-reply unwinding | `PollLoop`, `Delegation` |
| Configuration files: .env files, password hashes, the mail server's account file | `EnvText`, `EnvFile`, `EnvWritten`, `EnvReading`, `EnvRoundTrip`, `ShaCrypt`, `CryptSteps`, `CryptVerify`, `AccountOrder`, `DmsAccounts` |
| Hot reload: the tool registry and the per-key tool cache | `McpCatalog`, `ToolCache` |
| Strings, lines and lists | `Strings`, `Lines`, `Filters` |

Loops, in-place updates and objects with fields are methods, loops and classes; each is proved to compute
a specification function; what that function means is stated apart from its text (the modules `AgentTurns`,
`LoadContent`, `Translation`, `SessionMemory`, `Nudging`, `EnvReading`, `CryptSteps` do little else), and the
promises are lemmas about those functions. The model is an arbitrary
script of replies, tools are arbitrary outcomes, and clocks, salts, map iteration orders and the results of
remote factories are parameters. One predicate, `Transcript.WellPaired`, is carried through the run, the
save, the repair on loading, the trimming, the compression and the translation.

## Where code and documentation disagree

The model follows the code. Each of these is proved, with the exact condition where the code keeps a promise
only sometimes, and where useful with a concrete input.

- The history can be cut behind the newest human message although a comment says it is never trimmed away
  (`Trimming.AnchorIsKept`, `Trimming.AnchorCanBeLost`).
- A reply that ends the turn but carries tool calls leaves them unanswered in the saved history
  (`AgentLoop.StopWithCallsBreaksPairing`, `Sessions.SessionsStayClosed`).
- A server call can lose its corrupt result and stay: if the result has an empty id, whatever the call's
  (`MemoryLoad.StripCorruptKeepsServerPairs`, `MemoryLoad.CallWithLostIdIsLeftBehind`).
- With a limit no longer than the marker, truncation may cut a character in two
  (`ToolResultText.TruncateKeepsUtf8`).
- A fresh user turn that mixes tool results with other content is translated with a user message between
  calls and answers (`OpenRouter.ConvertKeepsPairing`); sessions never produce one (`Handover.SessionsUnmixed`).
- One entry per kind and thread is not preserved by a save unless an entry's thread is a function of its
  message id (`SnoozeStore.SaveKeepsUnique`).
- The drain loop does not always get rid of the entry it picked: a recurring one stays due if its schedule
  does not parse, or parses but never comes, such as the 30th of February (`Drain.StaysDueExactly`,
  `Drain.NeverComingStaysDue`). Then the loop is never done (`Drain.DrainNeverEnds`).
- The retry cap can be exceeded by a message id that is fetched several times in one poll
  (`PollLoop.CopiesPassTheCap`).
- A bounce of a mail that lists its own id does not extend its references (`Delegation.BounceFollowsParent`).
- A value set in a .env file may not read back (`EnvRoundTrip.SetRoundTrip`).
- The registry mirrors the table of remote servers only if for no key the first and the last usable row make
  different factories, and a description may outlive its row (`McpCatalog.MirrorsWhateverBefore`, `McpCatalog.DescriptionMirrors`).
- The signature of a remote key is that of its last row, usable or not, which need not be the row that is
  registered; then an edited row does not invalidate its tools (`ToolCache.UnsettledGoesStale`). It includes
  the description, which no factory reads, but that does no harm (`ToolCache.DescriptionIsNotRead`).
- A reply does not clear a persisted waiting status: only a local copy is changed (cmd/kikubot/main.go:565),
  and the status is read again from the file when the history is saved (`Watchdog.OnlyCallsChangeStatus`).

## Model

| member | source | states |
|---|---|---|
| `Transcript.PairedByTurn` | internal/agents/agent.go:281-394 | the recursive pairing predicate means: every turn holds exactly the results of the calls of the turn directly before it |
| `Transcript.EachCallAnsweredOnce` | internal/agents/agent.go:281-394 | with distinct ids, a call of a non-last turn has exactly one result, in the next turn, and a result without a call there does not occur |
| `Transcript.PairedSuffix` | internal/agents/agent.go:607-625 | a suffix that starts at a user turn without tool results is well paired on its own, and closed if the whole was |
| `Transcript.SameToolsSamePairing` | internal/services/memory.go:113-127 | message-wise edits that keep calls, results and roles keep pairing, open calls and a safe first message |
| `MemoryLoad.StripCorruptServerResults` | internal/services/memory.go:156-227 | the flag-and-map loops drop corrupt server results with the calls they name, and report a message of which nothing is left |
| `MemoryLoad.StripCitationsFromMessage` | internal/services/memory.go:303-365 | the in-place pass clears citations and foreign keys block by block and leaves the rest alone |
| `MemoryLoad.StripUnusableThinking` | internal/services/memory.go:382-427 | the loop drops unsigned or blank thinking, unless the message would become empty |
| `MemoryLoad.TrimOrphanedLeadingMessages` | internal/services/memory.go:239-257 | the loop drops leading messages up to the first user turn without tool results |
| `MemoryLoad.HasToolResult` | internal/services/memory.go:262-293 | the scan finds a tool result exactly if the message has one |
| `MemoryLoad.ReadMemory` | internal/services/memory.go:110-127 | reading a file runs the passes in order and wraps each survivor |
| `MemoryLoad.TrimLeadIsSuffix` | internal/services/memory.go:229-257 | what remains is a suffix, everything dropped could not start a conversation, and the first message kept can (or none is kept) |
| `MemoryLoad.LoadKeepsTools` | internal/services/memory.go:113-127 | calls and results outside the dropped leading messages survive unchanged and in order, and none is added |
| `MemoryLoad.LoadKeepsPairing` | internal/services/memory.go:113-127 | a well-paired file is loaded as a well-paired history that starts with a plain user turn; a closed one stays closed |
| `MemoryLoad.LoadIsClean` | internal/services/memory.go:113-127 | a loaded message is never empty and has nothing left that a pass would remove |
| `MemoryLoad.LoadIsIdempotent` | internal/services/memory.go:113-127 | loading what was loaded changes nothing |
| `LoadContent.MessageMeaning` | internal/services/memory.go:156-427 | a stored message is dropped exactly if no block of it is sound; otherwise exactly its sound blocks with usable thinking are kept, in order (all sound ones if none is usable), each as stored but for citations and foreign keys; usable means a character that is no space in signature and thought, or in redacted data |
| `LoadContent.LoadMeaning` | internal/services/memory.go:110-127 | the loaded history has exactly the surviving stored messages from the first one on that can lead, in order, each with its role and those blocks |
| `MemoryLoad.StripCorruptKeepsServerPairs` | internal/services/memory.go:156-227 | in a message of which something is left, every call left has its result, if and only if every call stored had a usable result, or a corrupt one under its own non-empty id |
| `MemoryLoad.AnonymousCallIsLeftBehind` | internal/services/memory.go:178-190 | a call and its corrupt result, both without an id: the call is left alone |
| `MemoryLoad.CallWithLostIdIsLeftBehind` | internal/services/memory.go:178-190 | a call with an id whose corrupt result has lost it: likewise |
| `MemoryLoad.LoadedCalls` | internal/services/memory.go:113-127 | each loaded message comes from a stored one and keeps calls and results together exactly if that one meets the condition |
| `MemoryLoad.LoadKeepsServerPairs` | internal/services/memory.go:113-127 | if all stored messages meet it, a whole load leaves no server call without its result |
| `ToolResultText.TruncateToolResult` | internal/agents/agent.go:809-823 | the backwards scan computes the truncation described by the next three rows |
| `ToolResultText.TruncateFits` | internal/agents/agent.go:809-823 | a positive limit is respected in bytes and short input is returned unchanged |
| `ToolResultText.TruncateMeaning` | internal/agents/agent.go:809-823 | an oversized result is cut at the last character start that leaves room for the marker, and marked; or bluntly at the limit if that is no longer than the marker |
| `ToolResultText.BoundaryIsClose` | internal/agents/agent.go:815-822 | in valid UTF-8 (section 4 of RFC 3629) at most 3 bytes are given up to reach a character boundary |
| `ToolResultText.TruncateKeepsUtf8` | internal/agents/agent.go:809-823 | valid UTF-8 stays valid exactly if nothing is cut, the limit exceeds the marker, or the hard cut falls on a boundary; otherwise at most 3 bytes are given up |
| `Sizes.ComputeEffectiveSize` | internal/agents/agent.go:512-518 | the accumulating loop computes the size by which histories are trimmed |
| `Sizes.TailIsNoLarger` | internal/agents/agent.go:664-676 | a shorter suffix is never larger |
| `Sizes.PartsAdd` | internal/agents/agent.go:520-545 | text counts by its length, an image in a result at 6000 |
| `Sizes.BlocksAdd` | internal/agents/agent.go:520-565 | a message costs its role, 8, and for each block its ids, names, texts, inputs and addresses, or a flat rate for attachments |
| `Sizes.MessagesAdd` | internal/agents/agent.go:512-518 | a history costs its messages |
| `Sizes.LoadedWeighsTheSame` | internal/agents/agent.go:1050-1055 | a message weighs the same fresh and loaded, if its inputs are spelled as the encoder does |
| `Compression.SortLargestFirst` | internal/agents/agent.go:716-723 | the in-place exchange sort computes the order used by the rows below |
| `Compression.SortingSorts` | internal/agents/agent.go:716-723 | the sort leaves sizes in non-increasing order |
| `Compression.SortingPermutes` | internal/agents/agent.go:716-723 | the sort is a permutation and keeps the part already done |
| `Compression.RefsAreValid` | internal/agents/agent.go:703-715 | exactly the text-bearing results of editable messages are candidates, with their text sizes |
| `Compression.CompressToolResults` | internal/agents/agent.go:697-759 | collecting, sorting in place and overwriting the copied list refine the function that the rows below describe |
| `Compression.StubbingStopsWhenItFits` | internal/agents/agent.go:725-757 | stubs are applied one by one until the list fits or none is left; every shorter prefix of stubs is still too large |
| `Compression.CompressMeaning` | internal/agents/agent.go:697-759 | the k largest results become stubs, everything else, roles, order and ids are untouched; the outcome fits or all candidates are stubbed, and k is least |
| `Compression.OversizedMeansAllStubbed` | internal/agents/agent.go:697-759 | an outcome that does not fit has every text-bearing editable result stubbed |
| `Compression.StubMeaning` | internal/agents/agent.go:725-757 | a stub keeps id and error flag and says how much text it stands for |
| `Compression.SameShapesKeepPairing` | internal/agents/agent.go:697-759 | stubbing keeps pairing |
| `Trimming.FindAnchor` | internal/agents/agent.go:764-781 | the backwards loop finds the newest human message, -1 if there is none |
| `Trimming.HumanMeaning` | internal/agents/agent.go:764-805 | a message is a human's exactly if it is a user turn without tool results whose first text names a sender that is no agent, in any case |
| `Trimming.AnchorMeaning` | internal/agents/agent.go:764-781 | the anchor is the newest such message; none if the agents are not known |
| `Trimming.TrimHistory` | internal/agents/agent.go:625-689 | the imperative search refines the function that the rows below describe |
| `Trimming.TrimMeaning` | internal/agents/agent.go:625-689 | over budget with a safe cutpoint: the result starts at the oldest safe cutpoint from the anchor on whose tail fits, or at the first such cutpoint if none fits |
| `Trimming.FitExistsIffNewestFits` | internal/agents/agent.go:664-676 | a fitting candidate exists exactly if the tail of the newest safe cutpoint fits |
| `Trimming.AnchorIsKept` | internal/agents/agent.go:617-624 | the comment that the anchor is never trimmed away holds exactly if the tail from it fits or nothing fits |
| `Trimming.AnchorCanBeLost` | internal/agents/agent.go:669-675 | the summaries of a human's mail and a peer agent's, for which the human's is cut |
| `Trimming.TrimKeepsPairing` | internal/agents/agent.go:625-689 | trimming, with or without compression, keeps a well-paired (closed) history well paired (closed), never empties it, and starts it safely |
| `Trimming.StripAttachmentBlobs` | internal/agents/agent.go:580-606 | the copying loops replace attachment blocks only |
| `Trimming.StripMeaning` | internal/agents/agent.go:580-606 | a save replaces exactly the base64 images and documents of fresh messages, each by a note in its place, and changes nothing else |
| `Trimming.StripKeepsPairing` | internal/agents/agent.go:580-606 | stripping attachments neither creates nor repairs a pairing defect |
| `AgentLoop.SanitizeTruncatedToolInputs` | internal/agents/agent.go:940-966 | the loop repairs missing and cut-off inputs in place and collects the ids of the cut-off ones |
| `AgentLoop.Agent.SetHistory` | internal/agents/agent.go:104-106 | replaces the history and nothing else |
| `AgentLoop.Agent.ClearHistory` | internal/agents/agent.go:110-113 | clears history and last response |
| `AgentLoop.Agent.ProcessReply` | internal/agents/agent.go:281-384 | the loop over the blocks of a reply, with its early continues, computes the dispatch described by DispatchAnswers and RunKeepsDiscipline |
| `AgentLoop.Agent.HandleMessage` | internal/agents/agent.go:238-398 | the turn loop on the agent's fields refines the run about which the rows below speak |
| `AgentLoop.HistoryCarriesCalls` | internal/provider/anthropic.go:203-271 | for either provider the stored assistant turn carries exactly the calls of the reply, in order, and no result |
| `AgentLoop.DispatchAnswers` | internal/agents/agent.go:281-384 | whatever path answers it, every call gets exactly one result, in order |
| `AgentTurns.KeysTellCallsApart` | internal/agents/agent.go:890-914 | two calls share a key exactly if they have the same name and canonical input |
| `AgentTurns.DispatchMeaning` | internal/agents/agent.go:281-384 | each block of a reply has exactly this effect: a call runs, with its input, exactly if its tool exists, it was not cut off and no earlier call with the same name and canonical input failed; its result carries the outcome, its clamped text and the file note; any other call gets guidance marked as an error; a text becomes the last response |
| `AgentTurns.RunStarts` | internal/agents/agent.go:146-237 | a run starts from the history with the mail at its end, and with no failures |
| `AgentTurns.RunStep` | internal/agents/agent.go:238-398 | one more turn: nothing if cancelled; else the trimmed history is handed out, the reply stored, its blocks dispatched in order on the failures so far, and the results fed back unless the reply ends the run |
| `AgentTurns.RunEnds` | internal/agents/agent.go:238-398 | once a run has ended nothing more happens |
| `AgentTurns.RunExecutes` | internal/agents/agent.go:228-398 | so in every turn of every run exactly those calls run, once and in order |
| `AgentTurns.ReplyIsStored` | internal/provider/anthropic.go:203-271 | the stored assistant turn reads back as the reply, block by block and in order, inputs repaired; the second provider keeps text, calls and raw blocks |
| `AgentTurns.CompletionMeaning` | internal/provider/openrouter.go:338-380 | a completion becomes its text and its calls, in order, and the stop reason in the words of the first provider |
| `AgentLoop.RunKeepsPairing` | internal/agents/agent.go:238-398 | within one run every list handed to the provider is closed and starts with a plain user turn; the history left is closed exactly unless the run ended on an end_turn reply with calls |
| `AgentLoop.RunKeepsDiscipline` | internal/agents/agent.go:228-398 | a call that failed is never executed again with the same name and canonical input, no cut-off call is executed, all stored inputs are valid JSON, at most one provider call per turn |
| `AgentLoop.StopWithCallsBreaksPairing` | internal/provider/openrouter.go:338-380 | a completion marked as a plain stop breaks the pairing of the next run exactly if it carries calls |
| `Sessions.Poller.LoadHistory` | internal/services/memory.go:557-559 | a thread without a file starts with no history, one with a file with the repaired one |
| `Sessions.Poller.SetMemoryStatus` | internal/services/memory.go:505-528 | setting a status in the middle of a run writes the repaired history of that thread back |
| `Sessions.Poller.SaveHistory` | internal/services/memory.go:530-551 | what is written is the agent's history without attachment blobs; other files are untouched |
| `Sessions.Poller.HandleInbound` | cmd/kikubot/main.go:543-630 | loading, the first save, the run and the second save on an inbound mail refine one step of the session model |
| `Sessions.Poller.ReplayThread` | cmd/kikubot/main.go:284-315 | a scheduled replay runs on the memory of its own thread |
| `Sessions.Poller.RecordNote` | cmd/kikubot/main.go:930-950 | the note of an auto-reply is appended to the loaded history |
| `Sessions.StepKeepsPairing` | cmd/kikubot/main.go:543-630 | every list sent is sendable whatever happens; files stay closed if and only if the event does not save a run that ended with open calls |
| `Sessions.SessionsKeepPairing` | cmd/kikubot/main.go:478-708 | over any sequence of inbound mails, replays, notes and status writes on any threads every list handed to a provider is well paired and safely led, as long as no saved run ended with open calls |
| `Sessions.SessionsStayClosed` | cmd/kikubot/main.go:478-708 | that condition is exact: the files stay closed throughout if and only if it holds |
| `Sessions.OpenCallsAreSaved` | cmd/kikubot/main.go:615-630 | a saved run leaves a closed file if and only if it did not end on an end_turn reply with calls |
| `SessionMemory.OtherFilesStay` | cmd/kikubot/main.go:478-708 | an event leaves the files of all threads it does not name alone |
| `SessionMemory.FileMeaning` | internal/services/memory.go:530-551 | a saved run leaves its whole history without attachment payloads; a note is appended to what the thread starts from |
| `SessionMemory.FirstSaveMeaning` | cmd/kikubot/main.go:563-600 | without the second save the file holds what the thread started from or the history rebuilt from references |
| `SessionMemory.RunAppends` | internal/agents/agent.go:238-398 | a run only appends to the history |
| `SessionMemory.NextRunRemembers` | internal/services/memory.go:110-127 | the next run on a thread starts from every tool call and result of the run before, unchanged and in order |
| `OpenRouter.CollectToolMessages` | internal/provider/openrouter.go:218-235 | the loop turns tool results into tool messages in order |
| `OpenRouter.ConvertUserMessages` | internal/provider/openrouter.go:218-301 | the branches for fresh user turns |
| `OpenRouter.RawMessageToOpenRouter` | internal/provider/openrouter.go:404-479 | the branches for loaded messages |
| `OpenRouter.ConvertMessages` | internal/provider/openrouter.go:177-212 | the conversion loop refines the function about which the rows below speak |
| `OpenRouter.ConvertOneKeepsIds` | internal/provider/openrouter.go:177-212 | fresh or loaded, a message keeps its call and result ids, each once and in order |
| `OpenRouter.ConvertKeepsIds` | internal/provider/openrouter.go:177-335 | so does a whole history |
| `OpenRouter.ConvertKeepsPairing` | internal/provider/openrouter.go:177-335 | answers follow their assistant message directly exactly if no fresh user turn mixes tool results with other content |
| `Translation.ConvertKeepsCalls` | internal/provider/openrouter.go:218-335 | the calls of the chat are the tool uses of the history, in order, with ids, names and arguments as encoded; its tool messages are the results, in order, with their ids and first texts |
| `Translation.ConvertInOrder` | internal/provider/openrouter.go:177-212 | the system prompt first, if there is one, then message by message |
| `Translation.TextsInOrder` | internal/provider/openrouter.go:303-335 | the texts joined are those of the text blocks, in order |
| `Translation.PartsInOrder` | internal/provider/openrouter.go:236-282 | the parts of a fresh user turn show its texts, images and documents, in order, and nothing else |
| `Translation.TurnArrives` | internal/provider/openrouter.go:177-301 | which message a turn becomes, by role and whether it is fresh, and that it carries those texts or parts |
| `Handover.SessionsUnmixed` | internal/agents/agent.go:386-394 | no list handed to a provider in any session has a fresh user turn that mixes tool results with other content |
| `Handover.SendableTranslates` | internal/provider/openrouter.go:177-335 | a closed, safely led list without such turns translates with every call answered directly behind its assistant message and all ids in order |
| `Handover.SessionsTranslate` | cmd/kikubot/main.go:478-708 | over any sequence of mails, replays and notes on any threads every list handed to a provider translates that way, across saving, repairing, trimming and compressing |
| `SnoozeStore.Store.FindByThread` | internal/services/snooze.go:154-165 | the scan finds the first entry of the kind and thread |
| `SnoozeStore.FindIsFirst` | internal/services/snooze.go:154-165 | the entry found is the first of the kind on the thread |
| `SnoozeStore.Store.DeleteSnooze` | internal/services/snooze.go:227-258 | deletes by message id, by thread if nothing matched; see DeleteMeaning |
| `SnoozeStore.DeleteExactly` | internal/services/snooze.go:227-258 | for any store: of the kind only, the entries with the message id go, or those of the thread if there are none; the rest keeps its order |
| `SnoozeStore.Store.SaveSnooze` | internal/services/snooze.go:190-217 | resolves the thread, replaces and appends; see SaveMeaning |
| `SnoozeStore.Store.ArmWaitingWatchdog` | internal/services/snooze.go:106-126 | arms only with a positive deadline and known ids, and keeps the count in a nudge turn |
| `SnoozeStore.Store.AbortThreadSnoozes` | internal/services/snooze.go:172-188 | rewrites the list and counts what was removed; see AbortMembers |
| `SnoozeStore.Store.NextSnoozed` | internal/services/snooze.go:311-341 | the scan with loop variables yields the oldest due entry; see Drain.OldestMeaning |
| `SnoozeStore.OldestIsFirst` | internal/services/snooze.go:311-341 | of the entries due, the first of those with the least time |
| `SnoozeStore.Store.AdvanceOrDeleteSnooze` | internal/services/snooze.go:346-365 | one-shots go, recurring entries move; a schedule that does not parse or a thread lookup that fails is reported and nothing changes |
| `SnoozeStore.SaveKeepsUnique` | internal/services/snooze.go:190-217 | a save keeps one entry per kind and thread exactly if its message id is not stored under another thread while its own thread has an entry |
| `SnoozeStore.UniquenessIsNotInductive` | internal/services/snooze.go:190-217 | a unique store and a save after which it is not |
| `SnoozeStore.SaveMeaning` | internal/services/snooze.go:190-217 | with threads a function of message ids, a save replaces the entry of its kind and thread and leaves all others in order |
| `SnoozeStore.DeleteMeaning` | internal/services/snooze.go:227-258 | likewise a delete removes exactly the entries of its kind and thread |
| `SnoozeStore.AbortMembers` | internal/services/snooze.go:167-188 | an abort removes exactly the watchdog and one-shot entries of the thread |
| `SnoozeStore.AbortKeepsOrder` | internal/services/snooze.go:167-188 | the entries left are those at the surviving positions, in the order of the store |
| `SnoozeStore.OthersKeepsOrder` | internal/services/snooze.go:227-258 | so are the entries that a save or delete leaves |
| `SnoozeStore.StoreStaysUnique` | internal/services/snooze.go:106-258 | after every sequence of save, arm, advance, delete and abort there is at most one entry per kind and thread |
| `Watchdog.Scheduler.SetStatus` | internal/tools/status.go:36-112 | status, delivery gate and arming in sequence on the store |
| `Watchdog.Scheduler.RescheduleWatchdog` | cmd/kikubot/main.go:467-472 | pushes the entry out without touching its count |
| `Watchdog.Scheduler.ReplayTurn` | cmd/kikubot/main.go:386-463 | the status calls of a nudge turn, one by one |
| `Watchdog.Scheduler.FireWatchdog` | cmd/kikubot/main.go:386-463 | the branches of a firing watchdog refine the step of NudgesStayBounded |
| `Watchdog.NudgesStayBounded` | cmd/kikubot/main.go:386-472 | in any run a thread is nudged at most waitingWatchdogMaxFires times between two re-arms outside nudge turns, and stored counts stay within 0 and that number |
| `Watchdog.ExhaustedWatchdogGivesUp` | cmd/kikubot/main.go:386-463 | the next fire while still waiting sets status error and removes exactly the thread's watchdog |
| `Nudging.StatusCallMeaning` | internal/tools/status.go:36-112 | a status call is refused exactly if it claims waiting or complete undelivered, or names no known mail; else the thread it names gets the status; a watchdog is armed exactly for a delivered waiting with a deadline and a known mail, replaces the thread's, and counts on only in a nudge |
| `Nudging.UnreadIsPutOff` | cmd/kikubot/main.go:386-392 | if the memory cannot be read the watchdog is put off with its count |
| `Nudging.WatchdogStandsDown` | cmd/kikubot/main.go:393-400 | if the thread no longer waits its watchdog is removed and nothing else happens |
| `Nudging.WatchdogGivesUp` | cmd/kikubot/main.go:402-424 | after two nudges the thread is failed and its watchdog removed |
| `Nudging.NudgeStarts` | cmd/kikubot/main.go:426-434 | before a nudge the watchdog is put off with one more fire |
| `Nudging.NudgeMeaning` | cmd/kikubot/main.go:433-463 | after a nudge the thread has a watchdog exactly if it waits, and nothing else was removed |
| `Nudging.AutoReplyMeaning` | cmd/kikubot/main.go:918-950 | an auto-reply clears the status of its thread and removes exactly its watchdog and one-shot entries |
| `Nudging.ScheduledMeaning` | internal/services/snooze.go:346-365 | after its turn a one-shot task is removed and a recurring one moved to its next tick, if there is one and the run did not break off |
| `Nudging.SnoozeToolMeaning` | internal/services/snooze.go:190-258 | a schedule replaces the scheduled entry of its thread, a cancellation removes those of its mail |
| `Watchdog.NudgeKeepsCount` | internal/services/snooze.go:106-126 | a watchdog re-armed during its own nudge carries the count of that nudge |
| `Watchdog.NothingDeliveredNothingClosed` | internal/tools/status.go:36-112 | without a delivery no thread becomes waiting or complete and the store is unchanged |
| `Watchdog.OnlyCallsChangeStatus` | cmd/kikubot/main.go:563-566 | an inbound mail by itself leaves every status as it was: a status changes in a turn only by a status call that is carried out and names a mail of that thread |
| `Watchdog.LastCallDecides` | internal/tools/status.go:36-112 | and then the last such call of the turn decides |
| `Drain.OldestMeaning` | internal/services/snooze.go:311-341 | the next entry is due, is stored and has the least due time; there is none exactly if nothing is due |
| `Drain.TurnAddsNothingDue` | internal/services/snooze.go:106-126 | the status calls of a turn cannot add an entry that is due within the horizon, nor remove a task |
| `Drain.PassDisposes` | cmd/kikubot/main.go:241-275 | a pass removes at least one due entry and adds none, if its run does not break off and the entry is a watchdog, a one-shot, or has its next tick behind the horizon |
| `Drain.StaysDueExactly` | cmd/kikubot/main.go:241-275 | an entry of the picked kind and thread is still due after the pass if and only if it is no watchdog and either its run broke off or it recurs with no next tick behind the horizon |
| `Drain.NeverComingStaysDue` | internal/services/snooze.go:346-365 | a stored task on a schedule that parses but never comes is due again at once, by the zero time the cron library returns |
| `Drain.HandledInOrder` | cmd/kikubot/main.go:241-275 | entries are handled in non-decreasing due time |
| `Drain.DrainExpired` | cmd/kikubot/main.go:241-275 | if no recurring entry is due, or all next ticks lie behind the horizon, the loop terminates after at most as many passes as entries were due, in order, and leaves nothing due unless a replay failed |
| `Drain.DrainNeverEnds` | cmd/kikubot/main.go:241-275 | if a recurring entry is due and no next tick lies behind the clock, something is due after any number of passes |
| `Drain.PassIsEvent` | cmd/kikubot/main.go:241-275 | a pass of the loop is an event of the runs above |
| `PollLoop.Poller.RecordFailure` | cmd/kikubot/main.go:674-697 | the retry counter and the bounce at the cap |
| `PollLoop.Poller.HandleOne` | cmd/kikubot/main.go:486-701 | the branches of the loop body refine one step of the poll model |
| `PollLoop.Poller.ProcessNewEmails` | cmd/kikubot/main.go:478-708 | a poll is that step for every mail and one marking at the end |
| `PollLoop.RetriesStayBounded` | cmd/kikubot/main.go:478-708 | over any sequence of polls a message id reaches the agent fewer times than MaxEmailRetries plus the number of its copies in one poll (at most MaxEmailRetries times if a poll fetches each id once), and every stored counter is below the cap |
| `PollLoop.CopiesPassTheCap` | cmd/kikubot/main.go:674-697 | with repeated ids the bound is reached: the cap is exceeded |
| `PollLoop.ExhaustedIsSeen` | cmd/kikubot/main.go:674-697 | a mail handled as often as allowed is marked seen by the end of the poll |
| `PollLoop.RejectedNeverHandled` | cmd/kikubot/main.go:490-510 | auto-replies (section 5 of RFC 3834) and mail rejected by access control never reach the agent |
| `PollLoop.AutoReplyMeaning` | cmd/kikubot/main.go:767-772 | mail is machine-generated exactly unless its Auto-Submitted value is blank or, between spaces and in any case, no (section 5 of RFC 3834) |
| `PollLoop.PollMeaning` | cmd/kikubot/main.go:478-708 | for each mail fetched once: it reaches the agent exactly if it is no auto-reply, is allowed, there is a model and its history could be prepared; then it counts, a failure below the cap raises the counter, and everything else that is over is marked as seen, rejected mail if its bounce went out; other ids are untouched |
| `Delegation.ComputeThreading` | internal/tools/send_helper.go:215-278 | the branches that build references and In-Reply-To |
| `Delegation.FindUpstream` | cmd/kikubot/main.go:821-888 | the two walks with early exits |
| `Delegation.FirstInBox` | cmd/kikubot/main.go:870-883 | the inner walk |
| `Delegation.SendFollowsParent` | internal/tools/send_helper.go:215-278 | what a tool sends references a mail in the agent's INBOX and that mail's references (section 3.6.4 of RFC 5322), or starts a thread; nothing is assumed of mail from outside |
| `Delegation.SendMeaning` | internal/tools/send_helper.go:215-278 | a send fails exactly if a mail it names is not in the INBOX; a reply follows the trusted mail if it shares the thread, else the mail named, and names it in In-Reply-To; a forward follows the mail forwarded, anything else the trusted one; only without any of them it starts a thread |
| `Delegation.DeliveredTo` | internal/services/emailing.go:956-983 | a tool never writes to its own agent; a bounce and a notice go to the sender of the mail they follow |
| `Delegation.BounceFollowsParent` | internal/services/emailing.go:956-983 | an upstream notice does so too; a bounce exactly unless the mail it answers lists its own id |
| `Delegation.FollowingKeepsRoot` | internal/services/emailing.go:102-107 | a mail built that way stays in its parent's thread |
| `Delegation.LawHoldsThroughout` | internal/tools/send_helper.go:215-278 | over any sequence of sends, bounces, notices and arbitrary outside mail, every mail of an agent starts a thread or follows a mail in its INBOX, or bounces an outside mail that lists its own id |
| `Delegation.ParentOfSent` | cmd/kikubot/main.go:852-888 | the Sent-folder walk goes from an own outbound straight to the mail it follows |
| `Delegation.ViaSentIsNewest` | cmd/kikubot/main.go:842-888 | the Sent-folder walk stops at the newest reference that is an own outbound with a parent in the INBOX |
| `Delegation.ParentsInOrder` | cmd/kikubot/main.go:861-868 | whose parents are tried In-Reply-To first, then from the newest reference |
| `Delegation.UpstreamIsParent` | cmd/kikubot/main.go:821-888 | both walks together find exactly the mail that the answered outbound follows, the last reference but one; none if it started its thread |
| `Delegation.AnyHopAnswers` | cmd/kikubot/main.go:821-918 | whatever references an auto-reply names, the mail found is in the INBOX, the notice follows it, and if its sender is an agent the notice is an answer there |
| `Delegation.HopShortensReferences` | cmd/kikubot/main.go:821-918 | the notice of a hop carries the references received without the last one and is itself an answer if it reaches an agent |
| `Delegation.NoticeMeaning` | cmd/kikubot/main.go:889-918 | an answer is passed on exactly if the mail it answers followed one that did not come from the same party |
| `Delegation.Unwind` | cmd/kikubot/main.go:808-918 | a chain of notices, with any other deliveries between them, is shorter than the references it starts from, each notice carrying a proper non-empty prefix of them |
| `Delegation.UnwindAny` | cmd/kikubot/main.go:808-918 | for an auto-reply with arbitrary references the chain is no longer than the references of its first notice |
| `Delegation.ForgedSendersNeverEnd` | cmd/kikubot/main.go:808-918 | with three outside mails in the names of agents a chain of notices has any length: that senders are authentic is needed |
| `Delegation.NotificationIsGood` | cmd/kikubot/main.go:897-918 | posting the notice of a hop is one of the deliveries under which the law holds |
| `Delegation.ShorterPrefixKeepsRoot` | internal/services/emailing.go:102-107 | the thread root never changes along the chain |
| `Delegation.SentFallbackStaysInThread` | cmd/kikubot/main.go:842-888 | when it finds an upstream for a foreign notice, the notification carries exactly the references of the agent's own outbound |
| `EnvText.FindClosingQuote` | scripts/configurator/envfile.go:134-145 | the index loop finds the first quote that no backslash escapes |
| `EnvText.UnescapeQuoted` | scripts/configurator/envfile.go:147-169 | the index loop undoes escapes; see UnescapeEscape |
| `EnvText.UnescapeEscape` | scripts/configurator/envfile.go:147-169 | unescaping undoes escaping |
| `EnvText.QuotedIsEscape` | scripts/configurator/envfile.go:306-312 | the two successive replacements escape each character on its own |
| `EnvText.EscapeHasNoQuote` | scripts/configurator/envfile.go:134-145 | inside an escaped text no quote closes |
| `EnvText.ParseEntryIsLocal` | scripts/configurator/envfile.go:57-130 | a closed entry is read the same whatever follows it |
| `EnvFile.File.Load` | scripts/configurator/envfile.go:49-132 | the parsing loop builds the entry list of the functional parser |
| `EnvFile.ReadEntry` | scripts/configurator/envfile.go:57-130 | the branches of the loop body, multi-line values included |
| `EnvFile.File.GetLive` | scripts/configurator/envfile.go:188-195 | the first live entry wins |
| `EnvFile.GetMeaning` | scripts/configurator/envfile.go:188-205 | a value is read from the first live entry with the key, presence from the first entry |
| `EnvFile.File.SetVar` | scripts/configurator/envfile.go:218-232 | replaces in place or appends; see EnvRoundTrip.SetReparsed |
| `EnvFile.File.CommentVar` | scripts/configurator/envfile.go:248-256 | comments out in place; see EnvRoundTrip.CommentReparsed |
| `EnvFile.File.DeleteVar` | scripts/configurator/envfile.go:235-244 | filters in place; see EnvRoundTrip.DeleteReparsed |
| `EnvFile.File.RenderText` | scripts/configurator/envfile.go:259-274 | the nested loops join all lines |
| `EnvFile.RenderParse` | scripts/configurator/envfile.go:49-169 | for every text, rendering what was parsed gives it back, with a final newline added only if it is missing |
| `EnvFile.ParseRender` | scripts/configurator/envfile.go:49-132 | entries that read back one by one are read back as a file |
| `EnvWritten.VarReadsBack` | scripts/configurator/envfile.go:301-321 | the lines written for a valid key are read as one closed entry with that key, the commenting, and the reread value |
| `EnvWritten.RereadIsExact` | scripts/configurator/envfile.go:301-321 | the reread value is the value exactly if an unquoted one is trimmed and a multi-line one has no space before its first line end |
| `EnvReading.SurvivalMeaning` | scripts/configurator/envfile.go:301-321 | that is: without special characters no space at either end, with some none in front of the first line end |
| `EnvReading.WrittenForm` | scripts/configurator/envfile.go:301-321 | a variable is written as key, equals sign and value, quoted and escaped exactly if it holds one of eight special characters |
| `EnvReading.KeyMeaning` | scripts/configurator/envfile.go:171-186 | which keys are valid |
| `EnvReading.EscapeSequences` | scripts/configurator/envfile.go:147-169 | what a backslash and the character behind it stand for |
| `EnvReading.SingleQuotesRead` | scripts/configurator/envfile.go:105-114 | a single-quoted value is read verbatim up to the next single quote |
| `EnvReading.BareValueReads` | scripts/configurator/envfile.go:114-121 | a value without quotes is read without the space around it |
| `EnvReading.OtherLinesAreKept` | scripts/configurator/envfile.go:57-88 | blank lines and lines without an equals sign behind a key are kept as they are |
| `EnvReading.ProseIsKept` | scripts/configurator/envfile.go:66-84 | so are comments in which no valid key stands before the equals sign |
| `EnvRoundTrip.SetReparsed` | scripts/configurator/envfile.go:218-274 | after set, render and parse every other key keeps its value and commenting, provided no open quote lies in front |
| `EnvRoundTrip.SetBehindOpenQuote` | scripts/configurator/envfile.go:99-114 | a variable appended behind an open quote never reads back as its value |
| `EnvRoundTrip.SetRoundTrip` | scripts/configurator/envfile.go:49-321 | set, render and parse give the value back if and only if it survives and the file has no open quote or already had the key |
| `EnvRoundTrip.CommentReparsed` | scripts/configurator/envfile.go:248-274 | a commented-out variable reads back as commented out with its reread value; the others are unchanged |
| `EnvRoundTrip.DeleteReparsed` | scripts/configurator/envfile.go:235-274 | a deleted variable stays deleted and the others are unchanged, open quote or not |
| `ShaCrypt.RepeatAt` | scripts/configurator/dms_accounts.go:203-218 | a digest repeated to a length has that length and position i holds byte i mod 64: the byte sequences P and S |
| `ShaCrypt.AppendRepeated` | scripts/configurator/dms_accounts.go:209-218 | the countdown loop appends exactly that |
| `ShaCrypt.AppendByBits` | scripts/configurator/dms_accounts.go:194-200 | the shifting loop appends digest or password per binary digit of the length |
| `ShaCrypt.MixRounds` | scripts/configurator/dms_accounts.go:237-258 | the rounds loop (step 21 of Drepper's SHA-crypt specification) |
| `ShaCrypt.Sha512CryptRounds` | scripts/configurator/dms_accounts.go:161-271 | the loops over hash states refine the functional SHA-crypt for every password, salt and number of rounds |
| `ShaCrypt.WriteEncoded` | scripts/configurator/dms_accounts.go:284-299 | the packing loops refine the functional encoder |
| `ShaCrypt.EncodedText` | scripts/configurator/dms_accounts.go:284-299 | an encoded digest has 86 characters of the crypt alphabet |
| `ShaCrypt.GroupByteAt` | scripts/configurator/dms_accounts.go:276-299 | every byte can be read off the group that the permutation table puts it in |
| `ShaCrypt.EncodeInjective` | scripts/configurator/dms_accounts.go:284-299 | different digests are printed differently |
| `CryptSteps.MeetsSpecification` | scripts/configurator/dms_accounts.go:161-258 | the computation goes through steps 1 to 21 of Drepper's specification, stated as relations between byte strings |
| `CryptSteps.AlphabetInOrder` | scripts/configurator/dms_accounts.go:27 | the characters of the encoding are those of the crypt alphabet, in its order |
| `CryptVerify.ExplicitVerifies` | scripts/configurator/dms_accounts.go:301-332 | a hash printed with explicit rounds, any number, is accepted if and only if the cut salt has no dollar sign |
| `CryptVerify.DefaultVerifies` | scripts/configurator/dms_accounts.go:301-332 | for every salt: a hash printed with default rounds is accepted if and only if the cut salt has no dollar sign and does not start with "rounds=", or it reads as the head of a hash with explicit rounds and both digests coincide |
| `CryptVerify.AlphabetSaltVerifies` | scripts/configurator/dms_accounts.go:138-156 | salts over the crypt alphabet are always accepted |
| `CryptVerify.VerifyExactly` | scripts/configurator/dms_accounts.go:301-332 | a line is accepted if and only if sha512CryptRounds prints it, up to the scheme name, for a clean salt and rounds in range |
| `AccountOrder.SortInPlace` | scripts/configurator/dms_accounts.go:95-97 | an in-place sort by lower-cased address |
| `AccountOrder.SortSorts` | scripts/configurator/dms_accounts.go:95-97 | it keeps exactly the accounts and puts distinct addresses in strict order |
| `AccountOrder.SortIsUnique` | scripts/configurator/dms_accounts.go:95-97 | such an order is unique, whatever algorithm computes it |
| `AccountOrder.LessMeaning` | scripts/configurator/dms_accounts.go:95-97 | the order is that of byte strings |
| `DmsAccounts.ParseDmsAccounts` | scripts/configurator/dms_accounts.go:114-136 | the parsing loop builds the map of the functional parser |
| `DmsAccounts.LineMeaning` | scripts/configurator/dms_accounts.go:114-136 | which lines name which address and hash |
| `DmsAccounts.LastLineCounts` | scripts/configurator/dms_accounts.go:114-136 | of several lines with the same address the last one counts |
| `DmsAccounts.MailboxMeaning` | scripts/configurator/dms_accounts.go:70-79 | which roster addresses get a mailbox |
| `DmsAccounts.PrintReadsBack` | scripts/configurator/dms_accounts.go:99-105 | printed accounts with clean addresses and hashes are read back |
| `DmsAccounts.ExistingIsClean` | scripts/configurator/dms_accounts.go:114-136 | whatever the file, parsed addresses and hashes are clean and addresses lower case |
| `DmsAccounts.RegenerateDmsAccounts` | scripts/configurator/dms_accounts.go:62-105 | collecting, sorting in place and printing refine the function about which the rows below speak |
| `DmsAccounts.RosterIsListed` | scripts/configurator/dms_accounts.go:40-105 | every roster account with a password, repeated or not, is listed under a hash that verifies, the old one if that still did |
| `DmsAccounts.RosterHash` | scripts/configurator/dms_accounts.go:70-88 | where addresses are distinct, the hash is the one found or made for that roster position |
| `DmsAccounts.ListedIsClean` | scripts/configurator/dms_accounts.go:114-136 | clean addresses are necessary: of any roster only those are read back |
| `DmsAccounts.OthersAreKept` | scripts/configurator/dms_accounts.go:40-105 | every mailbox outside the roster keeps its hash and none is invented |
| `DmsAccounts.RegenerateTwice` | scripts/configurator/dms_accounts.go:40-105 | a second run with the same roster and passwords writes the same file, whatever salts and map order |
| `McpCatalog.Registry.Register` | internal/tools/registry.go:76-88 | an empty key is ignored, an empty description does not overwrite |
| `McpCatalog.Registry.Unregister` | internal/tools/registry.go:62-67 | removes factory and description |
| `McpCatalog.Registry.RegisterMCPServers` | internal/tools/mcp_servers.go:41-71 | the loops over table and old keys refine the function about which the rows below speak |
| `McpCatalog.TableAt` | internal/tools/mcp_servers.go:41-71 | for any table: built-ins stay, the remote keys become exactly the usable ones; a key known before gets its last usable row, a new one its first |
| `McpCatalog.MirrorsWhateverBefore` | internal/tools/mcp_servers.go:27-31 | the registry mirrors the table whatever was registered before if and only if for no key the first usable row and the last make different factories |
| `McpCatalog.EditedUrl` | internal/tools/mcp_servers.go:77-134 | a usable row with another address makes another factory |
| `McpCatalog.UsableMeaning` | internal/tools/mcp_servers.go:47-62 | which rows are usable |
| `McpCatalog.FactoryErrors` | internal/tools/mcp_servers.go:77-134 | a row makes no factory exactly if its mode is unknown or the variable its mode needs is not named |
| `McpCatalog.FactoriesCompare` | internal/tools/mcp_servers.go:77-134 | two rows make the same factory exactly if they agree, trimmed, in mode, key, address and what the mode reads |
| `McpCatalog.StaticDefaults` | internal/tools/mcp_servers.go:135-163 | the documented defaults of header and scheme |
| `McpCatalog.DistinctRowsSuffice` | internal/tools/mcp_servers.go:27-31 | distinct keys suffice |
| `McpCatalog.DescriptionsAt` | internal/tools/registry.go:76-88 | whatever the table: a key known before gets its last non-empty text, a new one that of its first row, and otherwise the text stays |
| `McpCatalog.DescriptionMirrors` | internal/tools/registry.go:76-88 | a description is that of the row the key is registered from if and only if that row has one, or the key had none before and no earlier row of it gave one |
| `ToolCache.Tools.BuildAgentTools` | cmd/kikubot/main.go:1022-1083 | the loops over the list, the cache, the names and the disabled names refine the functions of the rows below; the retry time is set exactly if a factory failed |
| `ToolCache.DisabledToolNames` | cmd/kikubot/main.go:1173-1193 | the two loops collect exactly the trimmed, non-empty names of both lists |
| `ToolCache.DisabledMeaning` | cmd/kikubot/main.go:1169-1193 | a name is disabled exactly if one of the lists holds it, trimmed |
| `ToolCache.AnyFailsMeaning` | cmd/kikubot/main.go:1053-1061 | that is: at some list position a registered remote key was called and returned nothing |
| `ToolCache.FailsMeaning` | cmd/kikubot/main.go:1053-1061 | when a listed key fails |
| `ToolCache.PartMeaning` | cmd/kikubot/main.go:1034-1067 | each listed key gets its factory's current result, or nothing if unknown or if its factory returned nothing in this build |
| `ToolCache.MemoIsUsed` | cmd/kikubot/main.go:1034-1050 | a key cached under its current row is not asked again and stays cached |
| `ToolCache.AskedIsCached` | cmd/kikubot/main.go:1053-1067 | a key that is asked and does not fail is cached under its current row |
| `ToolCache.SigIsLast` | cmd/kikubot/main.go:1029-1032 | the signature of a key is the last row with it |
| `ToolCache.ReloadIsCurrent` | cmd/kikubot/main.go:1131-1155 | so after any sequence of reloads of settled tables, with the registry equal to built-ins plus usable rows and no unlisted key cached |
| `ToolCache.UnsettledGoesStale` | cmd/kikubot/main.go:1022-1031 | whatever table is not settled, some earlier reload makes a key of it show the tools of a factory the registry no longer holds |
| `ToolCache.RepeatedRowIsSettled` | internal/tools/mcp_servers.go:77-134 | a row repeated with changes no factory reads, as white space around a field, is settled |
| `ToolCache.DescriptionIsNotRead` | internal/tools/mcp_servers.go:77-134 | in particular with another description |
| `ToolCache.DistinctRowsAreSettled` | internal/tools/mcp_servers.go:27-31 | tables with distinct keys are settled |
| `ToolCache.MemoAgreesWithScratch` | cmd/kikubot/main.go:1022-1083 | with no factory failing, the tools equal those of a build with an empty cache |
| `ToolCache.LastNameWins` | cmd/kikubot/main.go:1157-1209 | a name is offered exactly if some gathered tool has it and it is not disabled; the last such tool wins |
| `ToolCache.GatheredMeaning` | cmd/kikubot/main.go:1022-1067 | the tools gathered are the core tools and then the parts, in the order of the list |
| `ToolCache.OfferedMeaning` | cmd/kikubot/main.go:1022-1083 | a name is offered exactly if a core tool or a listed part has it and it is not disabled |

## Left out

- Network, mail servers, files and processes: results of calls are parameters; every store write and memory read that a property needs is assumed to succeed or is a flag of the step.
- SHA-512 itself: any function from byte strings to 64-byte digests; time zones and cron expressions: the next tick is a parameter.
- JSON and YAML text: blocks are a datatype, validity and canonical form are part of an input.
- Unicode: texts whose byte length matters are byte strings with one character per byte; lower-casing is ASCII.
- `MemoryLoad.StripCorruptServerResults`: a stored message without a content key, which the source keeps; the program itself always writes the key.
- Aliasing of Go slices: histories and entry lists are values, so that compressing leaves its input untouched holds of the model by construction.
- `DmsAccounts.RegenerateDmsAccounts`: the library sort is modelled by an in-place insertion sort; `AccountOrder.SortIsUnique` shows that for distinct addresses the algorithm does not matter.
- `DmsAccounts.RosterIsListed`: roster addresses must be clean; the source sets no such rule. `DmsAccounts.ListedIsClean` shows that one with a bar, a line break or a leading hash sign is not read back. A password is stored under its address without regard to case.
- `DmsAccounts.OthersAreKept`: the same rule, because such an address can spell out further lines.
- `DmsAccounts.RegenerateTwice`: likewise clean, and distinct up to case: of a repeated address the library sort does not fix the order of the lines, and a fresh hash of the one is replaced by that of the other.
- `ToolCache.ReloadIsCurrent`: the tables are settled (`ToolCache.UnsettledGoesStale` shows what happens otherwise), the printed signature of a row is taken to determine the row, what a remote factory returns is determined by what it reads of its row, and a built-in factory always gives the same result (an empty first result of a built-in stays cached).
- `ToolCache.MemoAgreesWithScratch`: the same assumptions.
- `Drain.DrainExpired`: the clock is assumed not to reach deadlines set during the drain; if a recurring entry is due, every next tick lies behind it (`Drain.DrainNeverEnds` says what happens otherwise).
- `Drain.StaysDueExactly`: that the cron library returns the zero time for a schedule that never comes is its documented contract; the library is not part of this model.
- `Handover.SessionsTranslate`: the same assumption as the next line.
- `Sessions.SessionsKeepPairing`: no saved run ends on an end_turn reply with calls; `Sessions.SessionsStayClosed` shows the condition is exact.
- `Sessions.Poller.HandleInbound`: of the writes before and after a run, those on the way to the first save may fail; the statuses themselves are the subject of `Watchdog`.
- `PollLoop.RetriesStayBounded`: marking as seen is effective.
- `Delegation.LawHoldsThroughout`: message ids are fresh, an agent's own are referenced by nobody before (they are random), outside mail does not claim an agent as its sender (`Delegation.ForgedSendersNeverEnd` shows that this is needed), an agent's own sends are never in its INBOX, and the trusted mail of a turn is in the INBOX.
- `Delegation.Unwind`: the chain starts with an auto-reply that follows one of the agent's own mails and is passed on by agents of the modelled kind; `Delegation.UnwindAny` covers any other first auto-reply.
- `Trimming.StripAttachmentBlobs`: the Go-quoted spelling of a document title in the stub.
- `OpenRouter.RawMessageToOpenRouter`: the raw spelling of a loaded tool result whose content is a plain string or has no text part.
- `AgentTurns.RunExecutes`: the canonical spelling of an input holds no NUL character, as no JSON encoder writes one.
- `SessionMemory.NextRunRemembers`: of the run before it is assumed that all files were closed and its mail has content that a load keeps.
- The admin-review hooks, demo notice wording, guidance wording, subject and attachment handling, recipient healing, the Outlook thread index, and the angle-bracket repair of message ids.
- File modification times that trigger a reload, and a reload skipped on a parse error: they only decide whether a reload happens.
- Prompts, logs, web handlers, REST tool wrappers and the diagnosis command: no state worth an invariant.
