# Hopskip, modelled in Dafny

Hopskip is a daemon that keeps terminal sessions alive, lets an LLM agent and
several browsers use them, and serves a web shell that the agent can rewrite.
This project models the parts of it that carry state or an algorithm and proves
what they promise. `dafny verify dfyconfig.toml` checks all of it.

Four conventions run through the files.

- Code that updates state step by step is a class or a method with loops, and its
  `ensures` equates what it leaves behind with a function of the inputs or of the
  old state. The promises are then lemmas about that function, over every input,
  every run or every interleaving.
- What a goroutine does under a lock, or a browser callback does before it
  returns, is one step. Interleavings are arbitrary sequences of steps.
- What such a function computes is said a second time without it: a run from its
  replies, a session from its steps, a drawing from its boxes, a text from its parts
  (`PtyHistory`, `TopoTidy`, `TopoDrawing`, `AnthropicStory`, `OpenAIStory`,
  `TranscriptText`, `ScreenLaws`, and the lemmas named ...`Law`, ...`Is` and ...`Iff`).
- The outside world is arbitrary: provider replies, tool results, PTY chunks,
  file-system and database failures are parameters that nothing is assumed about.

| files | subject |
|---|---|
| `PtyStream`, `Pty`, `PtyHistory` | PTY output fanned out to attached browsers, with reconnect replay |
| `LineDiff` | the line diff of the Changes tab |
| `TopoGraph`, `TopoTree`, `TopoForest`, `TopoTidy`, `TopoDrawing`, `TopoLayout`, `HopChain`, `TopoRing` | the topology drawing, the ssh hops to a host, and rings of gateways |
| `Events`, `AnthropicRunner`, `AnthropicStory`, `OpenAIRunner`, `OpenAIStory`, `Transcript`, `TranscriptText`, `ChatRuns`, `ChatHistories`, `Agent`, `ChatWorker` | the agent loops over one message and over a chat, their event stream, its two transcripts, and the chat socket |
| `WebPath`, `WebOverlay`, `WebServer` | asset paths, the four serving layers, Save to disk |
| `Credentials`, `CredentialRuns` | the active credential, one operation at a time and with statements interleaved |
| `PsTree`, `Screen`, `ScreenLaws`, `Sentinel`, `SentinelSpec`, `Clip` | process-tree search, screen tidying, done-sentinel and its stripping, UTF-8 clipping |
| `Common`, `Text`, `Decimal` | options, ends of lists, splitting, joining, white space, decimal numerals |

## Where the code does less than its text says

Each has the exact condition and a concrete input as lemmas.

- A provider error with an empty text is stored as an empty line and shown live as
  "error"; otherwise the stored and the live transcript agree. Condition:
  `Transcript.FinishedSameIff`, `ChatRuns.AnthropicTranscript`,
  `ChatRuns.OpenAITranscript`. Inputs: `ChatHistories.EmptyErrorA`,
  `ChatHistories.EmptyErrorO`.
- A Stop between the worker taking a job and registering its cancel function is
  lost. Condition: `ChatWorker.StopReaches`. Input: `ChatWorker.EarlyStopIsLost`.
- The key that decides whether a runner is kept joins its parts with a bar, so a
  credential with a bar in its token or model shares its key with another one.
  Condition: `Agent.KeyTellsApart`. Input: `Agent.KeyCollision`.
- A tool call that comes without the tool-use finish reason leaves the history
  unpaired, in that run and for the rest of the chat. Condition:
  `AnthropicRunner.PairedIff`, `OpenAIRunner.PairedIff` for a run,
  `ChatHistories.ChatPairedIffA`, `ChatHistories.ChatPairedIffO` for a chat. Inputs:
  `ChatHistories.DishonestReplyA`, `ChatHistories.DishonestReplyO`.
- A Responses run that ends by its budget, or by a failed call, right after a
  response with calls leaves them unanswered in the next message's request.
  Condition: `ChatHistories.ChatAnswersIff`. Input: `ChatHistories.BudgetLeavesOpen`.
- A cycle of more than 32 gateways leaves its hosts, and those behind them, out of
  the drawing. Condition: `TopoGraph.PlacedIff`, for a ring `TopoRing.RingDrawnIff`.
  Input: `TopoRing.ThirtyThreeAreLeftOut`.
- The hop chain is the drawn path except when the drawn root is a root only because
  it sits on a cycle, or the path has more than nine hosts. Condition:
  `HopChain.SameAsTopology`. Input: `TopoRing.TwoBehindEachOther`.
- Saving under a directory that the dev overlay also serves can change what is
  served. Condition: `WebOverlay.SavedUnderDev` for a file,
  `WebOverlay.SaveInvisibleIff` for the loop. Input: `WebOverlay.SharedDirectory`.
  With the root directory as export directory nothing is saved and success is
  reported (`WebOverlay.RootSavesNothing`).
- A write to a file while that file is being saved is lost. Condition:
  `WebOverlay.LostUpdateIff`. Input: `WebOverlay.WriteIsLost`.
- Normalising an asset path is not idempotent. Condition: `WebPath.IdempotentIff`.
  Input: `WebPath.NotIdempotent`.
- Exactly one credential is to be active. A count that cannot be read is taken as
  zero and a failed promotion is ignored, and the statements of several clients
  interleave. Condition: `Credentials.StepKeepsIff` for an operation by itself,
  `CredentialRuns.InterleavingIff` for any interleaving. Inputs:
  `CredentialRuns.AdditionsMayInterleave`, `CredentialRuns.DeletionMayInterleave`,
  `CredentialRuns.AdditionAfterLast`, `CredentialRuns.FailedCountAddsActive`.
- The protocol text (`spec/mcp-protocol.md`, section 6.5) asks to drop the resolved
  line and the suffix appended to the echoed command, and to alter nothing else; the
  code drops every line that shows the prefix. Condition:
  `SentinelSpec.StripMeetsSpecIff`. Inputs: `SentinelSpec.EchoIsLost`,
  `SentinelSpec.MentionIsLost`.

## Model

| member | source | states |
|---|---|---|
| PtyStream.NoGapNoDuplicate | internal/session/attach.go:34-69 | in every interleaving of pump, attach, read, detach and teardown, a client that nothing was dropped for has read or still holds exactly the output from min(total, ring cap) bytes before its attach up to its cut-off |
| PtyStream.DroppedOnlyWhenFull | internal/session/manager.go:143-148 | with drops, a client's bytes are its replay and then whole chunks in order out of those pumped since; the missing ones are exactly those offered to a full queue |
| PtyStream.EofMeansAll | internal/session/attach.go:52-69 | Read reports the end exactly when the channel is closed and replay and queue are drained, and the client then has all it is owed |
| PtyStream.Drains | internal/session/attach.go:50-69 | once cut off, a client that keeps reading reaches the end whatever its buffer sizes and whatever else happens in between, having read exactly what it was owed |
| PtyStream.CutOffStep | internal/session/manager.go:160-171 | nothing but its own reads touches a cut-off client |
| PtyStream.ReadMoves | internal/session/attach.go:52-69 | one Read, remainder stash included, moves bytes from the front of what is held to the end of what was read |
| PtyStream.StepKeeps | internal/session/manager.go:131-176 | every step keeps the invariant of ring, output and all clients |
| PtyStream.Reachable | internal/session/manager.go:131-176 | so every run satisfies it |
| PtyHistory.PumpOffers | internal/session/manager.go:143-148 | over any steps, one more chunk goes to the end of every subscribed client's queue if and only if fewer than 256 chunks wait there, else the queue stays; the offer is recorded with how many waited; other clients are untouched |
| PtyHistory.ReadGives | internal/session/attach.go:52-69 | over any steps, a Read gives what fits of the rest of the replay or else of the next chunk, leaves the rest pending in order, and waits only when nothing is pending and more can come |
| PtyHistory.Chronicle | internal/session/attach.go:31-48 | from the steps alone: the output is what was pumped, a session is closed once torn down, client k is the k-th attach before that, its place in the output is from its attach to the first step that detaches it or ends the session, and with nothing dropped it has read or holds exactly that and the last 512 KiB before |
| PtyHistory.ClientsAre | internal/session/attach.go:24-41 | there are as many clients as attaches before the end of the session |
| PtyHistory.RoomForAll | internal/session/manager.go:143-148 | nothing is dropped for a client that was offered at most 256 chunks |
| Pty.LiveSession.Pump | internal/session/manager.go:134-150 | the pump's critical section is the Pump step: capped ring, then every subscriber |
| Pty.LiveSession.FanOut | internal/session/manager.go:143-148 | the send loop offers the chunk to every subscriber once, in whatever order |
| Pty.LiveSession.Attach | internal/session/attach.go:24-48 | snapshot and subscription are the Attach step; refused exactly when closed |
| Pty.LiveSession.Teardown | internal/session/manager.go:160-171 | closing is the Teardown step, and closing twice changes nothing |
| Pty.LiveSession.Drop | internal/session/manager.go:167-170 | one subscription is closed and forgotten; its channel was still open |
| Pty.Handle.Read | internal/session/attach.go:52-69 | Read into a real buffer is the Read step: what was copied, how much, and nothing beyond it |
| Pty.Handle.Detach | internal/session/attach.go:87-99 | detaching is the Detach step, any number of times |
| Pty.Handle.Copy | internal/session/attach.go:54 | fills the front of the buffer and leaves the rest |
| Pty.Chan.TrySend | internal/session/manager.go:144-147 | a send is taken exactly when the buffer has room; only open channels are sent on |
| LineDiff.Diff | web/public/app.js:940-956 | the diff reads back as either text, keeps a longest common subsequence, changes fewest lines of all edit scripts, and of those that change as few is the first: where another one first differs, it keeps a line, or removes one where the other adds one |
| LineDiff.Table | web/public/app.js:943-946 | the table filled backwards is the recurrence at every entry |
| LineDiff.Walk | web/public/app.js:947-955 | the greedy walk keeps exactly as many lines as the table's first entry |
| LineDiff.Longest | web/public/app.js:943-955 | no common subsequence, wherever it sits in the two texts, is longer than what is kept, and that is one |
| LineDiff.LcsBound | web/public/app.js:945-946 | a table entry bounds every common subsequence of the remaining lines |
| LineDiff.Minimal | web/public/app.js:939-956 | no edit script between the same texts has fewer added and removed lines |
| LineDiff.FirstOfShortest | web/public/app.js:948-954 | which of the shortest scripts the greedy walk gives |
| LineDiff.Faithful | web/public/app.js:941-955 | joining the two sides of a diff gives back both texts |
| LineDiff.LcsAtMost | web/public/app.js:943-946 | every entry is at most the shorter remaining side |
| LineDiff.LcsSteps | web/public/app.js:943-946 | neighbouring entries differ by at most one |
| TopoGraph.PlacedIff | web/public/app.js:542-548 | a host is placed exactly when its links do not lead into a cycle longer than the guard |
| TopoGraph.AllPlacedIff | web/public/app.js:542-548 | every host is placed if and only if there is no such cycle |
| TopoGraph.DepthBound | web/public/app.js:551-561 | no path of the forest is longer than the number of hosts, which is why the recursion ends |
| TopoGraph.ParentIs | web/public/app.js:531-537 | a host's gateway is the last host listed under its via name, unless that is the host itself |
| TopoGraph.HangsIff | web/public/app.js:542-548 | a host hangs from its gateway unless at most 32 links from it come back to it |
| TopoTree.PlaceAllWithin | web/public/app.js:549-561 | each subtree's columns stay inside its own run of leaves |
| TopoTree.PlaceAllOrdered | web/public/app.js:549-561 | on one level columns are at least one apart and parents' columns are never swapped |
| TopoTree.PlaceAllParents | web/public/app.js:567-575 | every host below the roots has its parent one level up, at the column its edge starts from |
| TopoTidy.PlacementTidy | web/public/app.js:549-561 | in the placement every parent's column is half the sum of its leftmost and rightmost child's, the childless hosts fill the columns 0, 1, 2, ..., and under two children of one parent, or two roots, all of the one listed first is a column to the left of all of the other |
| TopoForest.PlacedOnce | web/public/app.js:542-561 | exactly the grounded hosts are placed, each once, at its depth and under its parent |
| TopoForest.TreesOnce | web/public/app.js:549-561 | no host is in two subtrees |
| TopoForest.TreesCover | web/public/app.js:549-561 | every host below a listed one is in its subtree |
| TopoLayout.Layout.SeesCycle | web/public/app.js:543-545 | the guarded loop finds exactly the cycles of at most 32 links through the host |
| TopoLayout.Layout.Link | web/public/app.js:538-548 | children, parents and roots are those of the forest |
| TopoLayout.Layout.Assign | web/public/app.js:549-560 | the recursion with the shared leaf counter makes exactly the specified positions |
| TopoLayout.Layout.PlaceAllHosts | web/public/app.js:538-562 | all positions, the number of leaves and the deepest level |
| TopoLayout.Layout.Render | web/public/app.js:567-575 | boxes and edges of the positioned hosts, in list order |
| TopoLayout.Layout.Draw | web/public/app.js:525-578 | exactly the placed hosts have boxes, in list order, 140 apart by level; a box with boxes below it is midway between the outermost of them, the childless ones have one equal strip of the canvas each, and whole subtrees stand 200 apart in list order; boxes of one level are 200 apart (a node is 178 wide), edges between adjacent levels do not cross, every edge joins its two boxes, and the canvas is just as wide and high as needed or asked |
| TopoDrawing.Geometry | web/public/style.css:320-323 | why boxes keep apart and edges do not cross, for any canvas wide enough |
| TopoDrawing.ColXGap | web/public/app.js:562-565 | one column apart is at least 200 pixels apart |
| TopoDrawing.Canvas | web/public/app.js:562-577 | every box is half a gap inside the canvas |
| TopoDrawing.AllConnected | web/public/app.js:567-575 | each edge ends at its box and starts at the parent's box, or at the laptop |
| TopoDrawing.IsPicture | web/public/app.js:562-577 | the tidy placement in pixels: centred parents, one strip for each childless host, subtrees apart, levels, and no host left out |
| HopChain.ConnectChain | web/public/app.js:1200-1216 | from any host record, still in the list or not, the hops are the links followed until eight gateways, no further gateway, or an id seen before, and each is given by its ssh tag, or its name when it has none |
| HopChain.HopsLinked | web/public/app.js:1200-1216 | each gateway is the `via` of the next hop, the host last |
| HopChain.SameAsTopology | web/public/app.js:1200-1216 | for a placed host the hops are the drawn path if and only if it has nine hosts, or fewer and a root without gateway |
| HopChain.AcyclicChain | web/public/app.js:1197-1216 | for a chain of at most eight gateways that ends, they are |
| HopChain.NoEarlyStop | web/public/app.js:1207-1214 | short of nine hops the walk never stops below the drawn root |
| TopoRing.RingDrawnIff | web/public/app.js:542-548 | a ring of gateways is drawn if and only if it has at most 32 hosts |
| TopoRing.ThirtyThreeAreLeftOut | web/public/app.js:542-548 | a ring of 33 is not |
| TopoRing.TwoBehindEachOther | web/public/app.js:1207-1214 | of two hosts behind each other the drawing makes a root, while the hops to it go through both and itself again |
| Events.OpenAppend | internal/agent/anthropic.go:72-114 | what the loop emits round by round joins to a stream with no done and every tool_use followed at once by its tool_result |
| Events.EndStream | internal/agent/anthropic.go:86-101 | a done, after a notice or an error or alone, finishes such a stream and adds no call and no dispatch |
| Events.TokensLaw | internal/agent/anthropic.go:75-83 | one token for each delta that has a text, in order |
| AnthropicRunner.Runner.Send | internal/agent/anthropic.go:53-120 | the loop with its emits and appends is the specified run, for every provider |
| AnthropicRunner.Runner.Call | internal/agent/anthropic.go:72-115 | one provider call and what follows it |
| AnthropicRunner.Runner.UseTools | internal/agent/anthropic.go:104-114 | each call dispatched once, in order, between its tool_use and its tool_result, and answered under its id |
| AnthropicRunner.RunShape | internal/agent/anthropic.go:53-120 | one done, at the end; every dispatch bracketed; between one and the budget's number of provider calls; every request a prefix of the history |
| AnthropicRunner.CallsLaw | internal/agent/anthropic.go:105-109 | the calls of a reply are its tool-use blocks, all of them and in order |
| AnthropicStory.Story | internal/agent/anthropic.go:53-120 | a run calls again exactly when the reply asks for tools and the budget has room; each request is the one before, the reply, and one answer per call with that call's id and that dispatch's output; the events are, call by call, thinking, the text, the usage, and tool_use and tool_result for each call, or how it ended; and the history left is what the last reply leaves |
| AnthropicStory.BudgetNoticeIff | internal/agent/anthropic.go:118-119 | the last word before done is the budget notice if and only if the budget is used up and the last reply asked for tools |
| AnthropicRunner.PairedIff | internal/agent/anthropic.go:98-115 | every request is paired, and the history left behind is paired if and only if tool calls came with the tool-use stop reason |
| OpenAIRunner.Runner.Send | internal/agent/openai.go:99-111 | a message goes to the latched API, with the system prompt put in once |
| OpenAIRunner.Runner.RunChat | internal/agent/openai.go:113-179 | the Chat Completions loop is the specified one, the switch at step 0 included |
| OpenAIRunner.Runner.RunResponses | internal/agent/openai.go:189-256 | the Responses loop is the specified one |
| OpenAIRunner.Runner.ChatCall | internal/agent/openai.go:123-174 | one chat call: switch, stop, error, empty, answer or tools |
| OpenAIRunner.Runner.RespCall | internal/agent/openai.go:212-251 | one Responses call and its outputs |
| OpenAIRunner.RunShape | internal/agent/openai.go:99-256 | one done, at the end; every dispatch bracketed; at most the budget's number of calls, or after the switch one and as many as the budget read again allows |
| OpenAIStory.Story | internal/agent/openai.go:99-256 | the same for both APIs and the switch between them: when it calls again, what each request holds, every event, and the history or the response id that is left |
| OpenAIStory.BudgetNoticeIff | internal/agent/openai.go:177-178 | the budget notice, for either API |
| OpenAIStory.SystemOnce | internal/agent/openai.go:105-109 | over all runs of a runner the system prompt is first in every chat request and nowhere else, and a run's first request is the history left before it and the user's message, or the prompt and the message for the first run |
| OpenAIRunner.LatchHolds | internal/agent/openai.go:100-103 | after a run has latched no later run calls Chat Completions |
| OpenAIRunner.PairedIff | internal/agent/openai.go:161-174 | as for Anthropic, with one tool message per call right after the assistant message |
| OpenAIRunner.HistoryGrows | internal/agent/openai.go:99-179 | the history is only ever extended |
| OpenAIRunner.RequestsChained | internal/agent/openai.go:196-252 | within a run request k+1 chains response k and carries one output per function call of it, in order |
| ChatHistories.ChatPairedIffA | internal/agent/anthropic.go:98-115 | over all messages of a chat the history ends paired if and only if every reply was honest; once unpaired it stays so |
| ChatHistories.ChatPairedIffO | internal/agent/openai.go:161-174 | likewise |
| ChatHistories.ChatAnswersIff | internal/agent/openai.go:200-252 | over all messages every Responses request answers all calls of the response it chains if and only if no run but the last ended by budget or failure right after a response with calls |
| ChatHistories.DishonestReplyA | internal/agent/anthropic.go:98-102 | one tool call with another stop reason unpairs the history |
| ChatHistories.DishonestReplyO | internal/agent/openai.go:161-167 | likewise |
| ChatHistories.BudgetLeavesOpen | internal/agent/openai.go:192-200 | a budget of one ends a run right after a response with a call, and the next request does not answer it |
| Transcript.Recorder.Emit | internal/server/ws.go:216-237 | the recorder's step, by event kind |
| Transcript.Recorder.FlushAssistant | internal/server/ws.go:209-214 | accumulated text becomes one stored line, if there is any |
| Transcript.ChatView.Handle | web/public/app.js:399-424 | the live view's step, by event kind |
| Transcript.StepInStep | internal/server/ws.go:216-237 | one event keeps the stored lines and the live bubbles in step |
| Transcript.PersistedEqualsLive | internal/server/ws.go:199-237 | for every finished run whose errors carry text, the chat reopened from storage is the chat as shown live |
| Transcript.SameIff | web/public/app.js:362-371 | for any stream that ends in done, the two agree if and only if no tool_result interrupts text and no error is empty |
| Transcript.FinishedSameIff | web/public/app.js:399-424 | for a finished run that is: if and only if no error is empty |
| TranscriptText.StoredAsSaid | internal/server/ws.go:209-237 | what is stored of a finished run is every character of assistant text and every tool use, tool result, notice and error, in order, with the text between them gathered into one line |
| TranscriptText.ShownAsStored | web/public/app.js:399-424 | the live view of a finished run is those lines, bubble for line, each with the face of its role, and "error" for an error without a text |
| TranscriptText.ReopenedAsStored | web/public/app.js:362-371 | a reopened chat shows each stored line with its own text and the face of its role |
| ChatRuns.AnthropicTranscript | internal/agent/anthropic.go:72-114 | an Anthropic run reads the same stored and live if and only if every provider error it met had a text |
| ChatRuns.OpenAITranscript | internal/agent/openai.go:123-252 | likewise over both OpenAI APIs |
| ChatHistories.EmptyErrorA | internal/agent/anthropic.go:86-94 | an error without a text reads differently stored and live |
| ChatHistories.EmptyErrorO | internal/agent/openai.go:135-152 | likewise |
| Agent.MaxSteps | internal/agent/agent.go:35-42 | the budget is positive whatever is stored |
| Agent.StoredBudget | internal/agent/agent.go:35-42 | a stored numeral is the budget used |
| Agent.BudgetIs | internal/agent/agent.go:35-42 | for any setting: the positive number it spells, if it fits, else 512 |
| Agent.Chat.Deliver | internal/agent/agent.go:195-219 | a message rebuilds the runner when the key changed and runs it |
| Agent.Serves | internal/agent/agent.go:204-219 | the present runner goes on with its history while its key is provider, token and model; else a new one with an empty history serves, OpenAI's for that provider and Anthropic's for any other; the message gets that runner's run |
| Agent.NothingServes | internal/agent/agent.go:198-203 | without a credential there is the notice and nothing changes |
| Agent.EveryMessageFinishes | internal/agent/agent.go:195-210 | every message ends with its one done, with or without a credential |
| Agent.HistoryFollowsKey | internal/agent/agent.go:158-160 | under one key the history only grows; under another it starts afresh |
| Agent.KeyTellsApart | internal/agent/agent.go:204 | among credentials whose provider has no bar, no other one has this one's key if and only if its token and model have no bar |
| Agent.BarFreeTokens | internal/agent/agent.go:204 | keys tell any two credentials apart whose providers and tokens have none |
| Agent.KeyCollision | internal/agent/agent.go:204-208 | with a bar two credentials share a runner |
| ChatWorker.Conserved | internal/server/ws.go:142-196 | over all interleavings the accepted jobs are the finished ones, the one in hand, the queued ones and the one being sent, in order |
| ChatWorker.NeverOverlap | internal/server/ws.go:152-165 | runs are one after the other in the order of acceptance |
| ChatWorker.NoSendAfterClose | internal/server/ws.go:166-194 | nothing is sent on the closed channel |
| ChatWorker.StopReaches | internal/server/ws.go:145-164 | a run is cancelled if and only if a stop or the disconnect came while it was the registered one |
| ChatWorker.EarlyStopIsLost | internal/server/ws.go:153-157 | a stop before the run is registered reaches nothing |
| ChatWorker.Drains | internal/server/ws.go:153-166 | after the disconnect the worker finishes every accepted job and exits |
| ChatWorker.NeverStuck | internal/server/ws.go:142-196 | from any interleaving the two can go on until every accepted job is finished in order and the worker has left |
| ChatWorker.MessageAccepted | internal/server/ws.go:143-194 | a message is taken whenever the reader reads, and gets through exactly while fewer than eight jobs wait |
| ChatWorker.StepKeeps | internal/server/ws.go:142-197 | every step keeps the protocol's invariant |
| ChatWorker.Socket.ReadFrame | internal/server/ws.go:168-185 | a message, a stop or the end of the connection, as a step |
| ChatWorker.Socket.SendJob | internal/server/ws.go:194 | the blocking send, as a step |
| ChatWorker.Socket.CloseChannel | internal/server/ws.go:166 | the channel is closed once, when the reader leaves |
| ChatWorker.Socket.WorkOnce | internal/server/ws.go:152-165 | the worker's next step |
| WebPath.NormalizeWebPath | internal/store/web.go:21-43 | the segment loop computes the specified key or refusal |
| WebPath.NormalizeProper | internal/store/web.go:18-43 | a path is accepted exactly when it names something and has no '..' segment; its key then has no empty, '.' or '..' segment |
| WebPath.WrittenIs | internal/store/web.go:22-28 | what is split is the path between its white space, with forward slashes, after its leading slashes |
| WebPath.NamedLaw | internal/store/web.go:30-38 | segments that name something are kept, one by one and in order |
| WebPath.ProperIsFixed | internal/server/server.go:417 | such a key is a fixed point of the rooted cleaning of requests |
| WebPath.CleanedIsProper | internal/server/server.go:416-420 | cleaning any request leaves such a path, or nothing |
| WebPath.CleanLaw | internal/server/server.go:417 | wherever they stand in a path, an empty or '.' segment goes, and '..' goes with the named segment before it, or alone at the front |
| WebPath.CleanedSegs | internal/server/server.go:417 | the cleaned path has exactly the cleaned segments |
| WebPath.IdempotentIff | internal/store/web.go:22-24 | normalising twice gives the same key exactly when the first neither starts nor ends with white space |
| WebPath.NotIdempotent | internal/store/web.go:22-24 | "/ a" is an input where it does not |
| WebOverlay.ServedFrom | internal/server/server.go:416-443 | for every request: the dev overlay's file, else the authored one, else the saved one, else the built-in one, else nothing; a request that cleans to nothing is one for index.html |
| WebOverlay.IndexIsServed | internal/server/server.go:416-443 | "", "/" and "x/.." are all the index page, and it is always there when it is built in |
| WebOverlay.WrittenIsServed | internal/server/server.go:416-443 | an authored write is served at its key unless the dev overlay has that file |
| WebOverlay.LandsBelow | internal/server/web.go:105-108 | a key lands strictly below the export directory |
| WebOverlay.SaveIsInvisible | internal/server/web.go:100-121 | after any number of rounds, whatever failed, every request is served what it was served before, when dev and export directories are apart |
| WebOverlay.SaveClears | internal/server/web.go:113-122 | a save that goes through empties the overlay and counts every file, and a later authored write wins again |
| WebOverlay.RoundWrites | internal/server/web.go:101-119 | a round without faults saves exactly when no file is in the way of its directories and no directory in its place; then the directories and the content are on disk, all else there is as before, and that row alone is gone |
| WebOverlay.SaveRuns | internal/server/web.go:99-121 | the rounds follow one another and stop after the first that fails, which is reported; the count is the files saved |
| WebOverlay.RoundServes | internal/server/web.go:101-119 | a round shows in what the dev overlay serves of its file, whole or half written, and in no other name |
| WebOverlay.SavedUnderDev | internal/server/server.go:421-433 | a round is invisible to every request, whatever fails in it, if and only if what it leaves in its file was served already under every name the dev overlay serves it as |
| WebOverlay.SaveInvisibleIff | internal/server/web.go:100-121 | what is served stays the same all through the loop, whatever fails, if and only if every round run is so |
| WebOverlay.LostUpdateIff | internal/server/web.go:101-119 | with writes before, during and after a round, the newest content is served unless it was written during the round and differs from what was read; then what was read is |
| WebOverlay.WriteIsLost | internal/server/web.go:101-119 | a concrete write that is lost |
| WebOverlay.OtherWritesKept | internal/server/web.go:101-119 | writes to other keys never are |
| WebOverlay.SharedDirectory | internal/server/server.go:421-433 | a concrete shared directory where saving, and a write that fails half way, change what is served |
| WebOverlay.RootSavesNothing | internal/server/web.go:106-108 | with the root as export directory every file is skipped |
| WebServer.Server.HandleWebExport | internal/server/web.go:88-123 | the export handler is the specified save over the listed files |
| WebServer.Server.SaveFile | internal/server/web.go:101-120 | one round: read, check, make directories, write, delete the row |
| WebServer.Server.HandleWebChanges | internal/server/web.go:17-58 | each overlay file is new or an override with its base size, and an extension is shown exactly while its entry is pending |
| WebServer.Server.WriteWebFile | internal/agent/tools.go:681-690 | the agent's write stores under the normalised key or changes nothing |
| WebServer.Server.PutWebFile | internal/store/web.go:46-58 | upsert of one key |
| WebServer.Server.DeleteWebFile | internal/store/web.go:93-96 | removal of one key |
| WebServer.Server.ListWebFiles | internal/store/web.go:73-90 | every key once, in path order |
| WebServer.OrderIs | internal/store/web.go:76 | path order: the first differing character decides, and a path comes before its extensions |
| WebServer.PendingLaw | internal/server/web.go:48-56 | an extension is shown exactly while its entry names a pending file, in its place |
| WebServer.NothingPending | internal/server/web.go:48-56 | with an empty overlay no extension is shown |
| PsTree.SshInPsOutput | internal/session/manager.go:347-380 | true exactly when some pid but the root is reachable from it along recorded parent links, in any table, and its last recorded command is named ssh |
| PsTree.Tables | internal/session/manager.go:348-361 | the two maps say of every pid what the rows say, repetitions in order and the last command winning |
| PsTree.ClosedHolds | internal/session/manager.go:362-378 | a marked set closed under children holds everything reachable |
| PsTree.AfterSlash | internal/session/manager.go:382-389 | a base name starts right after the last slash, or at the start when there is none |
| PsTree.BaseNameIs | internal/session/manager.go:384-389 | the name is what follows the last slash, or all of it |
| PsTree.LineIff | internal/session/manager.go:350-360 | a line gives a row exactly when it has a third field and its first two spell machine integers; the command is the other fields, a space apart |
| PsTree.ReadsBack | internal/session/manager.go:350-361 | a listing printed from rows is read back as those rows |
| Screen.NormalizeScreen | internal/session/manager.go:236-262 | the daemon's loops lay out the screen's paragraphs one blank line apart |
| Screen.TidyMultiline | web/public/app.js:39-46 | the browser's loops compute the same, on every input |
| Screen.Collapse | internal/session/manager.go:249-260 | the loop both share drops the second of two blank lines |
| Screen.TidyLines | internal/session/manager.go:231-262 | no blank first or last line, no two blank lines together, nothing at the end of a line |
| Screen.KeepsLines | internal/session/manager.go:236-262 | the right-trimmed lines that are not blank stay, in order |
| Screen.FixedIff | internal/session/manager.go:236-262 | a screen is left alone exactly when it is empty or already tidy |
| Screen.Idempotent | internal/session/manager.go:236-262 | tidying twice is tidying once |
| ScreenLaws.TidyLine | internal/session/manager.go:236-240 | a single line loses the spaces and tabs at its end |
| ScreenLaws.TidyMeets | internal/session/manager.go:249-260 | two texts that meet in lines that are not blank are tidied one below the other |
| ScreenLaws.TidyApart | internal/session/manager.go:241-262 | a blank line between two texts comes down to one empty line, and to none where nothing is left on one side |
| Sentinel.EchoIff | internal/session/manager.go:285-292 | the typed line matches the completion pattern if and only if the keys themselves do |
| Sentinel.Typed | internal/session/manager.go:286-288 | what is typed is the keys up to one final newline, other newlines as carriage returns, and on the same line the echo of the sentinel |
| Sentinel.EchoNeverCompletes | internal/session/manager.go:285-292 | so not when the keys do not hold the nonce |
| Sentinel.EchoesNeverComplete | internal/session/manager.go:285-306 | nor does a whole screen on which every nonce follows "?_", as in an echo |
| Sentinel.SearchIsLeftmost | internal/session/manager.go:303 | what is captured is the leftmost match's digits, and nothing is captured only if there is no match |
| Sentinel.ParsesExitCode | internal/session/manager.go:292-306 | when the nonce is on the screen only in the echo and the resolved line, the wait ends with the exit code the shell printed |
| Sentinel.SettledIs | internal/session/manager.go:302-305 | any screen that completes the command gives the digits of its leftmost match and is shown stripped |
| Sentinel.ExitCodeIs | internal/session/manager.go:303 | those digits as a number, or the largest integer |
| Sentinel.AwaitDone | internal/session/manager.go:298-311 | the first poll that completes or loses the session decides; otherwise the last screen comes back as it is |
| Sentinel.StripSentinel | internal/session/manager.go:393-403 | the filter that writes over its own input computes the specified lines |
| Sentinel.CleanLaw | internal/session/manager.go:393-403 | line by line: one that shows the prefix goes, any other stays in its place |
| Sentinel.StripsExactly | internal/session/manager.go:391-403 | a stripped screen never shows the prefix, and a screen is left alone exactly when it did not show it |
| Sentinel.StripKeepsOtherLines | internal/session/manager.go:393-403 | the other lines stay unchanged and in order |
| SentinelSpec.LinesAgreeIff | internal/session/manager.go:393-403 | line by line the code never keeps more than the protocol asks, and keeps the same exactly when each line that shows the prefix is a resolved line |
| SentinelSpec.StripMeetsSpecIff | spec/mcp-protocol.md:487-497 | the code strips as the protocol asks if and only if each line that shows the prefix is a resolved line, or all lines are but one that is the bare suffix |
| SentinelSpec.EchoIsLost | spec/mcp-protocol.md:493-497 | an echoed command goes with its prompt, where the protocol keeps it |
| SentinelSpec.MentionIsLost | spec/mcp-protocol.md:496-497 | so does output that mentions the prefix |
| Clip.Clip | internal/agent/tools.go:771-780 | for any bytes: untouched up to the limit, else cut at the last place a character may start; at most three bytes over |
| Clip.ClipsWholeCharacters | internal/agent/tools.go:771-780 | on valid UTF-8 (section 3 of RFC 3629) that is the longest run of whole characters within the limit, and the result is valid UTF-8 |
| Clip.EncodeReadsBack | internal/agent/tools.go:771-780 | the encoding meant there (section 3 of RFC 3629): a character reads back from its bytes, and has as many as its value asks for |
| Credentials.StepKeepsIff | internal/store/store.go:453-544 | an operation keeps exactly one credential active precisely when its statement failures, if any, are harmless |
| Credentials.RunKeepsOneActive | internal/store/store.go:453-544 | without statement failures any sequence of operations does |
| Credentials.ActivationAllOrNothing | internal/store/store.go:503-520 | an activation makes the id the active one or changes nothing |
| Credentials.DeletePromotesNewest | internal/store/store.go:532-544 | deleting the active credential activates the newest left; deleting another leaves the rest |
| Credentials.AddIs | internal/store/store.go:453-468 | an addition is a last row with its fields, under an id above all others |
| Credentials.UpdateIs | internal/store/store.go:523-530 | an update writes name and model of its row, the token only when one is given, and nothing else |
| Credentials.SwitchKeeps | internal/store/store.go:503-520 | a switch changes only which row is active |
| Credentials.DeleteKeeps | internal/store/store.go:533-544 | a deletion takes out its row and changes of the others only which is active |
| Credentials.DeleteCounts | internal/store/store.go:533-536 | one row less if there was such a row |
| Credentials.Store.AddLLMCredential | internal/store/store.go:453-468 | count, insert, new id |
| Credentials.Store.ActiveLLMCredential | internal/store/store.go:491-500 | an active row, or none exactly when none is active |
| Credentials.Store.SetActiveLLMCredential | internal/store/store.go:503-520 | the transaction with its rollback, and which outcome it reports |
| Credentials.Store.UpdateLLMCredential | internal/store/store.go:523-530 | name and model always, the token only when given |
| Credentials.Store.DeleteLLMCredential | internal/store/store.go:533-544 | delete, count, promote |
| CredentialRuns.AloneIsAtomic | internal/store/store.go:453-544 | the statements of one client alone are the operation |
| CredentialRuns.StepSoundIff | internal/store/store.go:453-544 | a statement keeps at most one active, and none only while a deletion is going to promote, exactly unless it inserts or promotes on a count that no longer holds, or is the last promotion and fails |
| CredentialRuns.InterleavingIff | internal/store/store.go:453-544 | that holds all along an interleaving of any clients' statements, failed or not, if and only if no statement is of that kind when its turn comes |
| CredentialRuns.SettledIff | internal/store/store.go:532-544 | with no deletion under way it says exactly one active, or no credential |
| CredentialRuns.Overtaken | internal/store/store.go:453-544 | a count of none goes stale only by an insertion, a promotion or a switch that another client got in between |
| CredentialRuns.AdditionsMayInterleave | internal/store/store.go:454-464 | two additions that both count first are both active |
| CredentialRuns.DeletionMayInterleave | internal/store/store.go:533-543 | a deletion whose count is followed by another client's switch leaves two active |
| CredentialRuns.AdditionAfterLast | internal/store/store.go:453-464 | an addition that counted the last credential before its deletion leaves none active |
| CredentialRuns.FailedCountAddsActive | internal/store/store.go:454-464 | a failed count adds a second active one |
| Decimal.PrintParses | internal/session/manager.go:304 | parsing a printed number gives it back |
| Decimal.AtoiPrinted | internal/agent/agent.go:37 | within the machine integer |
| Decimal.AtoiIff | internal/agent/agent.go:37 | which texts are numbers: a sign if any, zeros if any, and the number as it is printed, within the machine integer |
| Decimal.DigitByDigit | internal/agent/agent.go:37 | numerals are written and read digit by digit, the last digit last |
| Text.JoinSplit | web/public/app.js:941 | joining the parts of a split gives back the text |
| Text.SplitJoin | internal/store/web.go:28-42 | splitting joined parts gives them back |
| Text.FieldsJoin | internal/session/manager.go:351-359 | words joined by spaces are the fields again |
| Text.FieldsLaw | internal/session/manager.go:351 | any white space parts the fields on its left from those on its right; a word is a field |
| Text.TrimsEnds | internal/store/web.go:22 | trimming takes the white space at both ends and nothing else |

## Left out

- Pty.LiveSession.Teardown: does not model the manager's map of live sessions or the database row, which are updated outside the session lock; an open row says nothing about a live session, as the pump starts before the row is inserted.
- Pty.Handle.Read: a Read that would block is a result, not a suspended goroutine, and a client is read by one goroutine.
- AnthropicRunner.Runner.Send: provider, retries, timeouts and the texts of errors are parameters; a stop or a timeout is a failed call with a flag.
- Agent.Chat.Deliver: any failure to read the active credential counts as none, as in the code; the map of chats and its lock are not modelled.
- Transcript.Recorder.Emit: a failed write to the socket or the store is ignored by the code and not modelled; user messages are outside the two transcripts.
- ChatWorker.Socket.ReadFrame: frames that are not JSON, and messages without a chat id, are skipped by the code and are not steps.
- WebServer.Server.HandleWebExport: runs without writes in between, which `WebOverlay.LostUpdateIff` adds for one file; paths hold no symbolic links.
- WebServer.Server.HandleWebChanges: the extensions come as a parameter, and the failures of the two listings are not modelled.
- Sentinel.AwaitDone: the screens captured until the deadline come as a sequence; clock, sleeping and the failed write to the PTY are not modelled, nor is a typed line that the terminal wraps.
- Credentials.Store.AddLLMCredential: time stamps are not modelled, and the label is called name, as label is a keyword here.
- TopoLayout.Layout.Draw: columns are exact reals, and the host table is a map, so names that JavaScript objects inherit are not special.
- Clip.Clip: the limit is not negative; every caller passes a constant.
- Screens and lines are sequences of characters; the code has bytes in one place and UTF-16 units in the other, and all characters it looks at are ASCII.
- PTY, shell, terminal emulation and resizing, `ps`, HTTP, WebSocket framing and SQLite are foreign calls.
- The dispatcher's tools, prompts, model parameters, fetching URLs, settings, host and knowledge handlers are one-branch forwarders.
- JSON parsing and its repairs, Markdown, templates, clipboard and the extension loader are interface code.
- Features that only the files under `spec/` describe have no code to model.
