# RivetOS, modelled and proved in Dafny

RivetOS runs coding agents as child processes, follows their sessions, and keeps their conversations.
This project models the parts of it that are small state machines and algorithms, and proves what they
are there for. One module models one component:

| module | models |
|---|---|
| `SessionId`, over `JsText`, `Utf8`, `Base64Url` | canonical session ids and their one-segment form, written out at the level of UTF-16 code units, bytes (RFC 3629 section 3) and base64 digits (RFC 4648 sections 4 and 5) |
| `EventQueue` | the queue behind a run's `events` |
| `TurnLoop` | the loop of turns of the kimi executor and, through the `Harness` parameter, of the pi, opencode and qwen executors (`packages/harness-pi/src/executor.ts:368-498`, `packages/harness-opencode/src/executor.ts:380-510`, `packages/harness-qwen-code/src/executor.ts:379-508`) |
| `ChildProcess`, `Lines`, `Prompt`, `ResumeTranscript` | killing and reaping a child, splitting its output, clamping its prompt, rendering a prior conversation |
| `TranscriptWindow` | merging a transcript re-read through a sliding tail |
| `Conversations`, `Capture` | the hermes plugin: the tables and transactions of its client; its provider, queue and worker |
| `RankFusion`, over `Sorting` | reciprocal rank fusion and the boosted ranking |
| `DenReducer` | the rooms of many interleaved sessions |
| `SchemaZod`, `MeshFile`, over `Json` | translating JSON Schema to zod; parsing mesh.json |
| `Subscription` | the reconnecting WebSocket |

## How it is modelled

Code that changes things step by step is a class with the source's own fields, or a method with the
source's loop. An object whose methods interleave (queue, child process, turn loop, capture, subscription)
has a driver `Run` that takes any sequence of steps, in any order, and proves what every run shows. The
specification is never the fields of the object: it is written over the history of steps, or over the
trace of what can be seen, and the main results are lemmas about every history that keeps to it.

* **Turn loop.** A child process is a script: the lines it writes, with kills and steered messages at any
  point between them and at every later `await`, then its exit, its stderr verdict on a resume, its text
  and its token counts. `Legal` is the protocol of what may be seen next; `Run` proves that every run is
  legal; the lemmas say what legality amounts to.
* **Capture.** The agent thread runs a program of calls; each call may put several items, and the worker
  may move between any two of them. The worker takes an item, reads the live context, and runs one
  transaction at a time; a transaction may fail. The call that ends the session waits until the worker has
  stopped, or its wait times out, and then closes the pool; a transaction that holds a connection by then
  may still commit. `Consistent` relates the whole state to the program and to the committed transactions.
* **Subscription.** The status callback of a connect, an open or a close may call `close()` itself.
  `Replay` gives the trace of a run of inputs.

## Where the code and its promises part

Each of these is proved, with the exact condition under which the promise holds or a run that breaks it.

* A session id with a lone surrogate does not survive its segment: `SessionId.SegmentRoundTrip` is an
  equivalence, and `SessionId.LoneSurrogatesCollide` gives two ids that share one segment. Decoding is not
  injective either, because of a byte order mark and of stray low bits: `SessionId.DecodeThenEncode` says
  exactly when a segment is the one its id encodes to.
* The window merge keeps the right prefix of a history with repeated turns exactly when no earlier held
  turn looks like the window's first: `TranscriptWindow.RepeatedTurns`, with
  `TranscriptWindow.LookalikeDropsTurns` for a history of four turns that loses two.
* Nobody sets an encoding on a child's output, so it comes as bytes, and `iterateLines` decodes every chunk
  on its own. The lines are those of the text written exactly when every chunk ends where a character ends:
  `Lines.LinesOfBytes`. `Lines.CutCharacter` gives two chunks for which they are not.
* The comment at `packages/gateway-client/src/ws.ts:72-74` says that a socket closing twice cannot bring a
  second live socket. `Subscription.SecondLiveSocket` closes the old socket again after its replacement has
  connected, and gets one. At most one socket is ever live exactly when every timer that fires finds the
  newest socket closed, which `connect` does not check: `Subscription.OneLiveExactly`. So it is when no socket
  reports a close after it was replaced: `Subscription.OneLiveSocket`.
* After `close()` a socket is still connected exactly when the call came from the `connecting` callback:
  `Subscription.ConnectsAfterClose`, and `Subscription.ConnectAfterClose` for such a run.
* The zod validator lets through what the schema does not, for integers, for most enums that are not all
  strings, and elsewhere. It accepts nothing invalid exactly when the schema meets a condition that can be
  checked beforehand, through all nested schemas: `SchemaZod.SoundExactly`, with a value that shows it for
  every schema that does not. Conversely it refuses a valid value exactly when a number too large for a
  double stands where a number is asked for: `SchemaZod.Complete`.

## Model

| member | source | states |
|---|---|---|
| JsText.TrimFixedPoint | packages/types/src/harness-session-id.ts:38 | an id equals its trimmed self exactly when neither end is white space |
| JsText.ScalarRoundTrip | packages/types/src/harness-session-id.ts:99 | what the UTF-8 encoder sees of a string gives the string back exactly when it has no lone surrogate |
| JsText.UnitRoundTrip | packages/types/src/harness-session-id.ts:125 | every sequence of scalar values survives UTF-16, as a string without lone surrogates |
| Utf8.DecodeEncode | packages/types/src/harness-session-id.ts:99 | fatal decoding of encoded scalar values returns them |
| Utf8.EncodeDecode | packages/types/src/harness-session-id.ts:125 | bytes that decode are the one encoding of what they decode to: no overlong or other second form is accepted |
| Base64Url.ToUrlOfBtoa | packages/types/src/harness-session-id.ts:100 | the three replacements turn `btoa` output into the unpadded URL-safe digits of the bytes |
| Base64Url.AtobOfFromUrl | packages/types/src/harness-session-id.ts:113-116 | undoing the replacements and calling `atob` reads the same digits |
| Base64Url.FromSextetsOfSextets | packages/types/src/harness-session-id.ts:100-116 | bytes survive being cut into six-bit digits, at every length |
| Base64Url.SextetsOfFromSextets | packages/types/src/harness-session-id.ts:116 | digits that decode are the digits of their bytes exactly when the unused low bits of the last one are zero |
| SessionId.ParseExact | packages/types/src/harness-session-id.ts:36-45 | an id parses to a pair exactly when the pair is canonical and the id is the two joined by a colon; further colons stay in the native half |
| SessionId.FormatParse | packages/types/src/harness-session-id.ts:53-57 | formatting succeeds exactly on canonical parts, and parsing gives them back |
| SessionId.ParseFormat | packages/types/src/harness-session-id.ts:36-57 | every id that parses is rebuilt from its parts |
| SessionId.ToBinaryString | packages/types/src/harness-session-id.ts:79-83 | the binary string holds the bytes, one code unit each |
| SessionId.FromBinaryString | packages/types/src/harness-session-id.ts:85-89 | the array holds the low eight bits of each code unit |
| SessionId.EncodeSessionIdSegment | packages/types/src/harness-session-id.ts:97-101 | only a canonical id is encoded; its segment is the function the lemmas below speak of |
| SessionId.DecodeSessionIdSegment | packages/types/src/harness-session-id.ts:109-134 | alphabet, base64, UTF-8 and id are checked in this order, each with its own refusal |
| SessionId.SegmentRoundTrip | packages/types/src/harness-session-id.ts:91-134 | decoding the segment of a canonical id returns it, exactly when it has no lone surrogate |
| SessionId.SegmentAlphabet | packages/types/src/harness-session-id.ts:77-101 | exactly the canonical ids have a segment; it is non-empty, over the URL-safe alphabet, without padding |
| SessionId.SegmentsDistinct | packages/types/src/harness-session-id.ts:97-101 | distinct ids made of scalar values get distinct segments |
| SessionId.SegmentCollision | packages/types/src/harness-session-id.ts:97-101 | two ids share a segment exactly when an encoder sees the same code points in both |
| SessionId.LoneSurrogatesCollide | packages/types/src/harness-session-id.ts:99 | two canonical ids that share a segment, and the third id it decodes to |
| SessionId.DecodeThenEncode | packages/types/src/harness-session-id.ts:109-134 | what decodes is a canonical id of scalar values; its segment is the decoded one exactly when that has no stray bits and no leading byte order mark |
| SessionId.MarkedAlias | packages/types/src/harness-session-id.ts:125 | every id has a second segment, with a byte order mark, that decodes to it |
| SessionId.StrayBitsAlias | packages/types/src/harness-session-id.ts:116 | a last digit with other unused bits decodes to the same id |
| EventQueue.EventQueue.Push | packages/harness-kimi-code/src/executor.ts:247-252 | a push keeps the queue in step with the channel of its history: the oldest waiter or the buffer gets the event, a closed queue drops it |
| EventQueue.EventQueue.Done | packages/harness-kimi-code/src/executor.ts:254-259 | closing resolves every waiter with the end marker and leaves none |
| EventQueue.EventQueue.Next | packages/harness-kimi-code/src/executor.ts:261-270 | a call is answered from the buffer, with the end marker, or waits, as the channel says |
| EventQueue.Run | packages/harness-kimi-code/src/executor.ts:242-271 | in every interleaving call i is answered with the i-th event pushed before the close, else with the end marker once closed; never buffer and waiters together; nobody waits after the close |
| TurnLoop.RefusedOnlyOnResume | packages/harness-kimi-code/src/executor.ts:655-668 | only a child asked to resume, whose stderr said it could not, makes a spawn count as refused |
| TurnLoop.CleanTurn | packages/harness-kimi-code/src/executor.ts:655-699 | in a task nobody killed an outcome without error means exit code 0, no exception, and the closing line of the harness (for opencode a session id) |
| TurnLoop.OutcomeInFull | packages/harness-kimi-code/src/executor.ts:630-700 | for all four harnesses the outcome of a child: its text, the first thing that is wrong with it, and the id named first by its output, the resumed session, the pin or its files; no id, no tokens and a refusal when it is rejected |
| TurnLoop.ToldIsLast | packages/harness-kimi-code/src/executor.ts:632-638 | the id a child told is the last one its lines tell |
| TurnLoop.DuringHas | packages/harness-kimi-code/src/executor.ts:599-674 | every kill and message that comes while a child writes, or until its exit is known, is among those to be heard |
| TurnLoop.TaskRun.KillNow | packages/harness-kimi-code/src/executor.ts:324-328 | a kill keeps the first reason and reaches the child active at the time |
| TurnLoop.TaskRun.SetActive | packages/harness-kimi-code/src/executor.ts:346-349 | a child that comes up after a kill is asked to stop at once |
| TurnLoop.TaskRun.Stream | packages/harness-kimi-code/src/executor.ts:599-653 | what is seen of a child's output, with kills and steered messages at any point in it, and what it leaves behind: the last id told, the closing line |
| TurnLoop.TaskRun.RunOneSpawn | packages/harness-kimi-code/src/executor.ts:518-700 | one child from spawn to outcome keeps the protocol, and every kill and message of its script is heard; the outcome is the one `OutcomeInFull` spells out, given whether the task had been killed by then; refusal is only possible on a resume |
| TurnLoop.TaskRun.Attempt | packages/harness-kimi-code/src/executor.ts:416-442 | a turn's first spawn resumes the native id; a refusal, unless killed, forgets it and spawns afresh once |
| TurnLoop.TaskRun.Finish | packages/harness-kimi-code/src/executor.ts:444-462 | a non-empty id is adopted, the turn reported, and the oldest steered message taken, unless the turn erred |
| TurnLoop.TaskRun.Begin | packages/harness-kimi-code/src/executor.ts:330-339 | a signal that was aborted already is the first kill; it and what happens while a resumed conversation is rendered are heard in order |
| TurnLoop.TaskRun.RunTask | packages/harness-kimi-code/src/executor.ts:387-498 | the loop ends with the result its history calls for; an abort that came first gives verdict killed with its reason |
| TurnLoop.Run | packages/harness-kimi-code/src/executor.ts:316-498 | every run is legal; the kills and messages in its history are, in order, the abort, those of the first rendering, and those of the children that ran and of the renderings after refusals, no more and no fewer; the verdict is killed exactly if a kill came, with the first reason, else failed exactly if a turn erred, with the last error; reported only when every message had its turn; the output is the last text, the usage the last reported, and it counts the turns |
| TurnLoop.EventsAreBracketed | packages/harness-kimi-code/src/executor.ts:412-463 | the events are turn.start k, log and den events, turn.end k for k = 1, 2, ... and perhaps one open turn |
| TurnLoop.UsageAddsUp | packages/harness-kimi-code/src/executor.ts:676-683 | the usage of every turn.end is what all children up to then spent, refused resumes left out, its total their sum, its turns the turn's number |
| TurnLoop.UsageNeverShrinks | packages/harness-kimi-code/src/executor.ts:680-683 | usage in turn.end never decreases |
| TurnLoop.SpawnsPerTurn | packages/harness-kimi-code/src/executor.ts:412-442 | a turn spawns once or twice, the first turn once, a turn that has not begun never |
| TurnLoop.AttemptsPerTurn | packages/harness-kimi-code/src/executor.ts:421-442 | a second attempt follows a refusal only, and the first turn, having nothing to resume, makes one |
| TurnLoop.NativeIsLastAdopted | packages/harness-kimi-code/src/executor.ts:437-444 | the native id is the last one adopted, or none since the last refusal |
| TurnLoop.SpawnsResumeLastAdopted | packages/harness-kimi-code/src/executor.ts:416-444 | every spawn resumes the last id adopted; a retry and the first spawn are fresh; qwen pins an id on exactly the fresh ones |
| TurnLoop.OutcomeOfChild | packages/harness-kimi-code/src/executor.ts:518-700 | in a legal history the outcome of a child is what the child, the resume and pin of its spawn, and the kills before it make of it |
| TurnLoop.TurnHadAChild | packages/harness-kimi-code/src/executor.ts:416-442 | every turn with an outcome has a last spawn whose child came to it |
| TurnLoop.CountedUnlessRejected | packages/harness-kimi-code/src/executor.ts:663-683 | the tokens of a child count exactly when it ran and was not rejected; it refuses exactly when it was rejected on a resume |
| TurnLoop.TurnReportsItsChild | packages/harness-kimi-code/src/executor.ts:444-455 | every turn.end carries the text of its last child, the first thing wrong with it, and the id it names, or the one it resumed when it names none or is rejected; a turn ends on a refused resume only if killed |
| TurnLoop.NextSpawnResumes | packages/harness-kimi-code/src/executor.ts:412-444 | the next spawn resumes the id in the turn.end before it |
| TurnLoop.ToldIsResumed | packages/harness-kimi-code/src/executor.ts:638-679 | an id told by a child that is not rejected is the one of its turn.end and is resumed next; with none told the resumed session stays, and a fresh child goes by the pin (qwen) or the id recovered from its files |
| TurnLoop.CleanExactly | packages/harness-kimi-code/src/executor.ts:655-699 | a turn of a task nobody killed ends without an error exactly when its last child ran to exit code 0 without exception, failure or stopping line, and wrote its closing line (for opencode: has an id) |
| TurnLoop.MessagesInOrder | packages/harness-kimi-code/src/executor.ts:410-462 | the first message and then the steered ones get turns in order of arrival, each exactly one |
| TurnLoop.SpawnsCarryTheMessage | packages/harness-kimi-code/src/executor.ts:416-441 | every spawn of a turn, the retry included, carries that turn's message |
| TurnLoop.Endings | packages/harness-kimi-code/src/executor.ts:454-487 | a run is killed or failed exactly when its history holds a kill, or a turn that erred |
| TurnLoop.ResultTells | packages/harness-kimi-code/src/executor.ts:454-498 | the reason is that of the first kill, the output the last text that is not empty, the usage and the error those of the last turn.end |
| TurnLoop.NoTurnAfterTheEnd | packages/harness-kimi-code/src/executor.ts:412-463 | no turn starts after a kill or after a turn that erred |
| TurnLoop.ActiveInTurn | packages/harness-kimi-code/src/executor.ts:578-674 | a child is active inside a turn only, and in a killed task it has been asked to stop |
| TurnLoop.KillReachesTheChild | packages/harness-kimi-code/src/executor.ts:324-350 | in a killed task the active child was asked to stop, by the kill or when it came up |
| ChildProcess.ChildProcess.Kill | packages/harness-kimi-code/src/spawn-turn.ts:272-284 | SIGTERM unless a signal was delivered, one timer for the grace period, nothing once exited |
| ChildProcess.ChildProcess.OnTimer | packages/harness-kimi-code/src/spawn-turn.ts:279-281 | SIGKILL if the process is still alive |
| ChildProcess.ChildProcess.OnClose | packages/harness-kimi-code/src/spawn-turn.ts:295-301 | the exit code is latched, the timer cleared, every waiter answered |
| ChildProcess.ChildProcess.WaitExit | packages/harness-kimi-code/src/spawn-turn.ts:322-325 | a call waits before the close and is answered from the latch after it |
| ChildProcess.Run | packages/harness-kimi-code/src/spawn-turn.ts:272-328 | in every interleaving exactly the signals that are due are sent, every waitExit caller, early or late, gets the exit status exactly once after the close, and one timer at most is made |
| ChildProcess.Kill9AfterGrace | packages/harness-kimi-code/src/spawn-turn.ts:275-284 | SIGKILL goes only to a process alive when the grace period after a kill request on it is over |
| ChildProcess.Kill9Once | packages/harness-kimi-code/src/spawn-turn.ts:278-283 | SIGKILL is due at most once in a run |
| ChildProcess.SignalsToTheLiving | packages/harness-kimi-code/src/spawn-turn.ts:274-281 | no signal is sent to a process that has exited |
| ChildProcess.KillEscalates | packages/harness-kimi-code/src/spawn-turn.ts:275-284 | a process that outlives the grace period gets SIGKILL by the time the timer goes off |
| Lines.IterateLines | packages/harness-kimi-code/src/spawn-turn.ts:213-226 | for every chunking, text or bytes, the lines are the split at newlines of all chunks read as text one by one, a final empty piece left out |
| Lines.SplitIsUnique | packages/harness-kimi-code/src/spawn-turn.ts:213-226 | a text has one such split, so the lines do not depend on the chunking |
| Lines.DecodeChunks | packages/harness-kimi-code/src/spawn-turn.ts:216 | chunks that each end where a character ends decode to the text of the whole |
| Lines.ChunksGiveText | packages/harness-kimi-code/src/spawn-turn.ts:216 | the chunks of a well-formed text, decoded one by one, give the text exactly when each ends where a character ends |
| Lines.LinesOfBytes | packages/harness-kimi-code/src/spawn-turn.ts:213-226 | the lines read from the chunks of a well-formed text are the split of that text exactly when each chunk ends where a character ends |
| Lines.CutCharacter | packages/harness-kimi-code/src/spawn-turn.ts:216 | one character cut in two chunks is read as two replacement characters |
| Utf8.LossyAtLeast | packages/harness-kimi-code/src/spawn-turn.ts:216 | decoding with replacement writes a character for every possible start, and one more when the bytes begin inside a character |
| Utf8.LossyOfValid | packages/harness-kimi-code/src/spawn-turn.ts:216 | well-formed bytes are decoded without replacement |
| Utf8.CutShort | packages/harness-kimi-code/src/spawn-turn.ts:216 | a character cut after any of its bytes reads as one replacement character |
| Utf8.OneForAStart | packages/harness-kimi-code/src/spawn-turn.ts:216 | conversely one replacement stands for several bytes only if they are the start of a character |
| Prompt.CutKeepsLongest | packages/harness-kimi-code/src/spawn-turn.ts:143-145 | cutting UTF-8 at any byte and keeping the complete characters keeps the most that fit |
| Prompt.ClampKeepsLongest | packages/harness-kimi-code/src/spawn-turn.ts:140-147 | a prompt that fits is kept whole; another becomes its longest prefix of whole characters within 96000 bytes, at most 3 bytes short, and the marker; only a blank one is replaced |
| Prompt.ClampFits | packages/harness-kimi-code/src/spawn-turn.ts:60-71 | the clamped prompt is always below the 128 KiB an argument may have |
| ResumeTranscript.Render | packages/harness-kimi-code/src/executor.ts:191-212 | the rendering is the heading, the number of the messages left out, and the lines of the longest suffix of the messages that takes at most 24000 characters; what these are the next rows say |
| ResumeTranscript.UsableIsSpoken | packages/harness-kimi-code/src/executor.ts:193-194 | what is rendered are the messages of user and assistant whose content is a string with more than white space |
| ResumeTranscript.LinesQuote | packages/harness-kimi-code/src/executor.ts:192-200 | the lines are those messages in order, each its bracketed role and its content, or the first 2000 characters and the truncation mark |
| ResumeTranscript.JoinedSplits | packages/harness-kimi-code/src/executor.ts:211 | joining keeps the order of the lines and puts one blank line between any two parts |
| ResumeTranscript.OmittedReads | packages/harness-kimi-code/src/executor.ts:210 | messages left out are told by their number in decimal digits, and nothing is said when there are none |
| ResumeTranscript.KeptLength | packages/harness-kimi-code/src/executor.ts:203-211 | what is kept takes 23998 characters at most, and would take more with one more message |
| ResumeTranscript.LineLength | packages/harness-kimi-code/src/executor.ts:196-200 | no line is longer than 2025 characters, so the bound holds even where the loop stops at the last message |
| ResumeTranscript.LongestSuffixUnique | packages/harness-kimi-code/src/executor.ts:203-209 | the number left out is determined by the messages |
| ResumeTranscript.JoinedLength | packages/harness-kimi-code/src/executor.ts:203-211 | the kept text is two characters shorter than the room the loop reckons with |
| TranscriptWindow.MergeTranscriptWindow | packages/types/src/gateway-api.ts:190-211 | for all inputs the result is the prefix of `prev` before the first turn that matches and goes on matching, then all of `next` |
| TranscriptWindow.FindOverlap | packages/types/src/gateway-api.ts:198-204 | the index found is the first place where the window's first turn stands, or there is none |
| TranscriptWindow.OverlapAgrees | packages/types/src/gateway-api.ts:206-209 | the comparison says whether the two agree as far as both go |
| TranscriptWindow.KeptPrefixUnique | packages/types/src/gateway-api.ts:197-210 | the specification fixes how much of `prev` is kept |
| TranscriptWindow.MergeStep | packages/types/src/gateway-api.ts:195-210 | merging a window of a history of distinct turns into a held window gives a window of the history |
| TranscriptWindow.Follow | packages/types/src/gateway-api.ts:190-211 | after any run of frames whose end never moves back what is held is one contiguous window of the history |
| TranscriptWindow.NothingDropped | packages/types/src/gateway-api.ts:180-210 | the window ends at the newest turn, and its start moves forward exactly when a frame begins at or past the held end |
| TranscriptWindow.RepeatedTurns | packages/types/src/gateway-api.ts:199-210 | with repeated turns the right prefix is kept exactly when no earlier held turn looks like the window's first |
| TranscriptWindow.LookalikeDropsTurns | packages/types/src/gateway-api.ts:199-210 | a history of four turns of which the merge drops the first two |
| Conversations.Client.EnsureConversation | integrations/hermes/rivet-memory/client.py:98-119 | the conversation returned is active for the key and agent; at most one is added, and only when there was none |
| Conversations.Client.AppendMessage | integrations/hermes/rivet-memory/client.py:142-189 | the message is filed under its key and agent, last; activity changes for this key only; an invalid role changes nothing |
| Conversations.Client.AppendMany | integrations/hermes/rivet-memory/client.py:191-246 | all messages are filed in order in one transaction, or none when a role is invalid; an empty batch opens no conversation |
| Conversations.Client.CloseBySessionKey | integrations/hermes/rivet-memory/client.py:127-140 | afterwards exactly this key of this agent has no active conversation; no message moves |
| Capture.Plugin.SessionSwitch | integrations/hermes/rivet-memory/__init__.py:678-729 | the key moves at once; unless it is unchanged the old one is listed and a rotation put |
| Capture.Plugin.SessionEnd | integrations/hermes/rivet-memory/__init__.py:731-748 | every distinct key of the chain is closed in order, then the worker is told to stop and will be waited for |
| Capture.Plugin.ClosePool | integrations/hermes/rivet-memory/__init__.py:535-546 | the call returns with the pool closed |
| Capture.Plugin.AgentStep | integrations/hermes/rivet-memory/__init__.py:646-748 | a step of the agent thread puts one item of the call in progress, or returns from the end of the session once the worker has stopped, or begins the next call, and keeps the system consistent |
| Capture.Plugin.TimeOutStep | integrations/hermes/rivet-memory/capture.py:150-159 | the wait for the worker times out, and the pool is closed all the same |
| Capture.Plugin.TakeStep | integrations/hermes/rivet-memory/capture.py:163-173 | the worker takes the oldest item, or stops |
| Capture.Plugin.DispatchStep | integrations/hermes/rivet-memory/capture.py:175-177 | the operation is bound to the key that is live now, not when it was put |
| Capture.Plugin.Transactions | integrations/hermes/rivet-memory/capture.py:179-289 | the transactions of each kind of operation, by the dispatch's branches; `PlanFiles` says what they file |
| Capture.Plugin.RowsOf | integrations/hermes/rivet-memory/capture.py:230-259 | exactly the messages with a valid role, in order |
| Capture.Plugin.ConnectStep | integrations/hermes/rivet-memory/client.py:80-82 | a transaction takes a connection; a closed pool has none, which fails the operation |
| Capture.Plugin.CommitStep | integrations/hermes/rivet-memory/capture.py:163-173 | a transaction commits, or fails, is swallowed, and takes the rest of its operation with it |
| Capture.Run | integrations/hermes/rivet-memory/capture.py:163-173 | in every interleaving of the two threads, and with any failures, the state agrees with the calls begun and the transactions committed, which `RowsAreAskedFor` and `EndClosesEveryKey` spell out; at most one conversation per key and agent is ever active; unless a wait times out or a transaction fails of itself, nothing fails |
| Capture.DispatchedInOrder | integrations/hermes/rivet-memory/capture.py:163-173 | the operations dispatched are the first ones put before the stop, each once and in order, and all of them once the queue has drained |
| Capture.OpsBeforeStop | integrations/hermes/rivet-memory/__init__.py:731-748 | what is put before the stop is what the calls before the first end put, then the closing of every key |
| Capture.LiveOps | integrations/hermes/rivet-memory/__init__.py:709-729 | until the session ends the rotations put are a path from the first key to the live one |
| Capture.PlanLeaves | integrations/hermes/rivet-memory/capture.py:261-282 | a committed rotation leaves exactly its own breadcrumb, every other operation none |
| Capture.BreadcrumbsArePath | integrations/hermes/rivet-memory/capture.py:106-127 | without failures the breadcrumbs in the tables are a path from the first key, ending, once settled, at the key of the session's end |
| Capture.PlanFiles | integrations/hermes/rivet-memory/capture.py:179-289 | what the transactions of an operation file, with role and content, and under which key: the user and then the assistant part of a turn, empty ones left out, a memory write, a delegation, the known roles of a compression, a rotation under the new key |
| Capture.PutIsAskedFor | integrations/hermes/rivet-memory/__init__.py:646-729 | until the session ends the operations put are those for what the calls ask to be filed |
| Capture.RowsAreAskedFor | integrations/hermes/rivet-memory/capture.py:163-289 | without failures the rows filed past the initial ones are, in order and with role and content, the first of those that the calls before the end of the session ask for, and once settled all of them |
| Capture.RowsGo | integrations/hermes/rivet-memory/capture.py:175-177 | each row is filed for the agent under the key live when the worker came to its operation, which is never before it was put; a rotation row under the new key |
| Capture.ListedAreVisited | integrations/hermes/rivet-memory/__init__.py:709-719 | the live key and the list of rotated ones are exactly the keys the provider has been on |
| Capture.LiveKeyVisited | integrations/hermes/rivet-memory/__init__.py:535-546 | an operation that began a transaction was dispatched under a key visited before the session ended |
| Capture.LateKeysUntouched | integrations/hermes/rivet-memory/__init__.py:731-748 | whatever fails, and however long the agent goes on, a key it came to only after the end of the session is as active as it was |
| Capture.EndClosesEveryKey | integrations/hermes/rivet-memory/__init__.py:731-748 | once the worker has stopped, without failures, the keys visited by the end of the session are inactive and every other key is as active as it was |
| Sorting.SortDescSorts | integrations/hermes/rivet-memory/recall.py:224 | a sort by descending key holds the same elements, in order |
| Sorting.SortDescIsStable | packages/den-protocol/src/reducer.ts:164 | elements of equal rank keep their order |
| RankFusion.FuseList | integrations/hermes/rivet-memory/scoring.py:99-107 | one list adds its gains to every key's score and its new keys, with the item first seen, to the end |
| RankFusion.ReciprocalRankFusion | integrations/hermes/rivet-memory/scoring.py:82-108 | each key's score is the sum of 1/(k + rank) over all its places; keys stand in order of first appearance with the item first seen |
| RankFusion.FirstSeenAreFirst | integrations/hermes/rivet-memory/scoring.py:99-107 | the items kept are those that are the first with their key, in order of appearance |
| RankFusion.GainIsReciprocal | integrations/hermes/rivet-memory/scoring.py:103 | a place gains the reciprocal of k plus its rank |
| RankFusion.ScoreOrderIndependent | integrations/hermes/rivet-memory/scoring.py:87-97 | a score depends on which lists there are, not on their order |
| RankFusion.CollectBoosts | integrations/hermes/rivet-memory/recall.py:216-218 | a key's boost is the one that comes last in the lists |
| RankFusion.BoostIsLast | integrations/hermes/rivet-memory/recall.py:216-218 | the boost of a key is that of the last entry with it, none is 0 |
| RankFusion.KeysDiffer | integrations/hermes/rivet-memory/recall.py:217 | hits have one key exactly when type and id agree, as long as no type holds a colon |
| RankFusion.WriteScores | integrations/hermes/rivet-memory/recall.py:219-223 | every fused hit is given its score times one plus its boost |
| RankFusion.RrfFuse | integrations/hermes/rivet-memory/recall.py:209-225 | the hits come back as the ranking, each carrying its final score |
| RankFusion.RankingIsFair | integrations/hermes/rivet-memory/recall.py:209-225 | every key found stands in the ranking once, with one of its hits, by descending score |
| RankFusion.OutrankedScoresLess | integrations/hermes/rivet-memory/scoring.py:87-97 | a key that outranks another in every list that holds the other scores at least as much, and more if some list does |
| RankFusion.Dominance | integrations/hermes/rivet-memory/recall.py:209-225 | with a boost no smaller (and above -1) such a key always comes first |
| DenReducer.RoomsAreFolds | packages/den-protocol/src/reducer.ts:145-160 | for any interleaving each room is the fold of its own session's events, whose fields the rows below give, and its info says the last non-empty name or the id, the last harness, and the greatest of 0 and the timestamps |
| DenReducer.ProjectionsDecide | packages/den-protocol/src/reducer.ts:145-160 | two streams with equal per-session projections give equal den states |
| DenReducer.EndedAgrees | packages/den-protocol/src/reducer.ts:46-55 | a room is ended exactly when the last start or end was an end |
| DenReducer.EndedIsAbsorbing | packages/den-protocol/src/reducer.ts:47-49 | an ended room stays as it is until the next start, whatever comes |
| DenReducer.EndedRoomSleeps | packages/den-protocol/src/reducer.ts:49-55 | an ended room sleeps, with no tool and no thought |
| DenReducer.TitleAndReply | packages/den-protocol/src/reducer.ts:51-117 | the title is that of the last start, the last message the last reply received since |
| DenReducer.ToolIsStanding | packages/den-protocol/src/reducer.ts:46-117 | the tool shown is the last one started while the session had not ended, if no event since clears it, else none |
| DenReducer.ActivityIsCalledFor | packages/den-protocol/src/reducer.ts:46-117 | the activity is the one called for by the last event heard that calls for any, idle if none does |
| DenReducer.ToolClasses | packages/den-protocol/src/events.ts:113-134 | exactly which tool names stand for which activity: web search by part of the name before all else, planning and reading by whole names, editing by whole names or a part, and every other name runs a command |
| DenReducer.CaseIsIgnored | packages/den-protocol/src/events.ts:114 | names are taken in lower case |
| DenReducer.LogIsWindow | packages/den-protocol/src/reducer.ts:104-117 | the log is the last 60 messages received while not ended, across restarts |
| DenReducer.TermIsWindow | packages/den-protocol/src/reducer.ts:118-119 | the terminal shows the last 6 lines since the last start |
| DenReducer.ThoughtIsTail | packages/den-protocol/src/reducer.ts:87-97 | the thought is a suffix of the text since it was last cleared, all of it below 220 characters, else from a word boundary on or 220 characters without a blank |
| DenReducer.ThoughtFits | packages/den-protocol/src/reducer.ts:92-96 | after an appended delta it is at most 220 long |
| DenReducer.DeltaShows | packages/den-protocol/src/reducer.ts:87-97 | a delta that opens with a spinner's mark and a blank replaces the thought; any other is appended, of which at most 220 characters from the end are kept, from a word boundary on |
| DenReducer.TasksFollowPlan | packages/den-protocol/src/reducer.ts:56-65 | the tasks are those of the standing plan, each done exactly when it was checked since |
| DenReducer.ListIsRanked | packages/den-protocol/src/reducer.ts:163-165 | the list holds every session's info, most recent first, ties in the record's order |
| SchemaZod.JsonSchemaToZod | packages/mcp/src/adapt.ts:150-201 | for every JSON value the validator built, or the TypeError where a `required` has no `includes`, is the translation the lemmas below speak of |
| SchemaZod.JsonSchemaToZodShape | packages/mcp/src/adapt.ts:137-148 | the shape has an entry for every entry of `properties`, optional unless required |
| SchemaZod.ShapedTranslates | packages/mcp/src/adapt.ts:137-201 | no schema makes the translation throw |
| SchemaZod.Complete | packages/mcp/src/adapt.ts:150-201 | a value the schema accepts under type, enum, required, properties and items passes its validator, exactly unless a number too large for a double stands where a number is asked for, for all nested schemas |
| SchemaZod.CompleteObject | packages/mcp/src/adapt.ts:137-148 | so it is for the shape of a tool's parameters |
| SchemaZod.SoundExactly | packages/mcp/src/adapt.ts:150-201 | the validator accepts no invalid value exactly when the schema is sound: a condition on the keywords of every nested schema the translation reaches |
| SchemaZod.Unsound | packages/mcp/src/adapt.ts:150-201 | for every schema that is not sound, however deep the fault, a value that passes and is not valid |
| SchemaZod.RefusedBy | packages/mcp/src/adapt.ts:197-198 | a schema with any constraint refuses some value, so `z.unknown()` is exact for the others only |
| SchemaZod.Exact | packages/mcp/src/adapt.ts:150-201 | on a sound schema the validator accepts exactly the valid values without such a number |
| SchemaZod.PlainIsSound | packages/mcp/src/adapt.ts:126-132 | strings, numbers, booleans, nulls, arrays, objects and string enums whose required keys are declared, and with a constraint, are sound at every depth |
| SchemaZod.LargeNumberIsRefused | packages/mcp/src/adapt.ts:177-180 | the validator of a number refuses one too large for a double |
| SchemaZod.IntegerLetsFractionsThrough | packages/mcp/src/adapt.ts:177-180 | 0.5 passes the validator of an integer schema |
| SchemaZod.NumberEnumLetsAllThrough | packages/mcp/src/adapt.ts:157-170 | anything passes the validator of an enum of numbers |
| SchemaZod.TypeListLetsAllThrough | packages/mcp/src/adapt.ts:197-198 | anything passes the validator of a list of types |
| SchemaZod.UndeclaredKeyMayBeMissing | packages/mcp/src/adapt.ts:141-146 | a required key that is not declared may be missing |
| SchemaZod.EnumForgetsType | packages/mcp/src/adapt.ts:156-169 | a string of the enum passes although the type beside it is number |
| MeshFile.ParseMeshNode | packages/types/src/mesh.ts:319-413 | a node is refused for the first known field of the wrong type, else it is what the lemmas below describe |
| MeshFile.ParseNodes | packages/types/src/mesh.ts:451-465 | nulls are dropped; bad entries are skipped, or one of them is the error |
| MeshFile.AssertRecordMeshFile | packages/types/src/mesh.ts:430-477 | shape errors under every policy; otherwise the normalised file or a bad entry's error |
| MeshFile.ParseMeshFile | packages/types/src/mesh.ts:487-502 | text that is no JSON is refused as such, any other as its document |
| MeshFile.AcceptedWhenTyped | packages/types/src/mesh.ts:320-381 | a node is accepted exactly when it is an object whose known fields have their types |
| MeshFile.TypesOfFields | packages/types/src/mesh.ts:326-381 | which known field must be a string, a finite number, a list of strings or an object |
| MeshFile.NodeIsLossless | packages/types/src/mesh.ts:383-412 | every field, known or not, survives verbatim but for an absent or empty id or name; nothing but defaults is added |
| MeshFile.NamedByDefault | packages/types/src/mesh.ts:383-384 | a node without an id is named by its key, one without a name by its id |
| MeshFile.AbsentField | packages/types/src/mesh.ts:385-400 | which other fields are filled in when absent, and with what |
| MeshFile.RootIsLossless | packages/types/src/mesh.ts:467-476 | every unknown root field survives verbatim, and the three known ones are there |
| MeshFile.RootNumbers | packages/types/src/mesh.ts:467-470 | version and updatedAt are kept when finite numbers, else 1 and 0 |
| MeshFile.NodeTwice | packages/types/src/mesh.ts:319-413 | parsing a parsed node changes nothing |
| MeshFile.FileTwice | packages/types/src/mesh.ts:430-477 | parsing a parsed file changes nothing, under either policy |
| MeshFile.PoliciesAgree | packages/types/src/mesh.ts:415-465 | throwing succeeds exactly when the shape is right and every entry is accepted, and then gives what skipping gives |
| MeshFile.SkipKeepsTheGood | packages/types/src/mesh.ts:456-464 | skipping keeps exactly the entries that would pass alone when throwing, as they would be there |
| MeshFile.NullsVanish | packages/types/src/mesh.ts:455 | what is kept was neither null nor refused |
| Subscription.Subscription.Connect | packages/gateway-client/src/ws.ts:70-79 | a fired timer connects one socket, also when the `connecting` callback has just closed the subscription |
| Subscription.Subscription.OnOpen | packages/gateway-client/src/ws.ts:80-87 | an open resets the count, or closes the socket of a closed subscription |
| Subscription.Subscription.OnClose | packages/gateway-client/src/ws.ts:98-107 | a close replaces the pending timer by one for the next delay, which `BackoffDoubles` gives, unless the subscription is closed |
| Subscription.Subscription.UserClose | packages/gateway-client/src/ws.ts:116-120 | `close()` clears the timer and closes the newest socket |
| Subscription.Run | packages/gateway-client/src/ws.ts:46-120 | in every run, re-entrant closes included, the trace is the one the inputs ask for, keeps the rules and leaves no event unanswered; every close among the inputs that asks for a reconnect gets it after its base delay (half a second or the cap after an open, then doubling up to the cap) and its part of 250 ms |
| Subscription.OneTimer | packages/gateway-client/src/ws.ts:72-76 | at most one reconnect timer is ever pending |
| Subscription.QuietAfterClose | packages/gateway-client/src/ws.ts:98-120 | after `close()` nothing is scheduled or fires, and nothing connects but a connect whose own callback made the call |
| Subscription.ConnectsAfterClose | packages/gateway-client/src/ws.ts:70-79 | something connects after `close()` exactly when a `connecting` callback made the call |
| Subscription.ConnectAfterClose | packages/gateway-client/src/ws.ts:70-79 | a run in which it does |
| Subscription.CountOfInputs | packages/gateway-client/src/ws.ts:85-103 | the count the delays go by is that of the closes among the inputs since a socket last opened |
| Subscription.ReconnectDelay | packages/gateway-client/src/ws.ts:102-104 | the first close since an open leads to a timer of min(500, cap), every further one of twice the base before it up to the cap, each plus its random part of 250 ms |
| Subscription.BackoffDoubles | packages/gateway-client/src/ws.ts:102 | min(500 * 2^m, cap) is min(500, cap) for m = 0, and with every further m it doubles until it reaches the cap, where it stays |
| Subscription.BackoffIsMin | packages/gateway-client/src/ws.ts:102 | unless the cap is negative each base is the smaller of the cap and twice the one before, and no smaller than that |
| Subscription.BaseIsBackoff | packages/gateway-client/src/ws.ts:102-104 | the base reckoned from the inputs is min(500 * 2^m, cap), where m closes came since the last open |
| Subscription.OneLiveExactly | packages/gateway-client/src/ws.ts:70-79 | at most one socket is ever live exactly when every timer that fires finds the newest socket closed |
| Subscription.OneLiveSocket | packages/gateway-client/src/ws.ts:72-74 | so it is when no socket reports a close after it was replaced |
| Subscription.SecondLiveSocket | packages/gateway-client/src/ws.ts:98-107 | a run in which a late second close brings a second live socket |

## Left out

- Turn loop: what the child's lines hold. A child's text, its ids, its exit and its token counts are given with the script; the mapping of stdout lines to events, the reading of usage from disk and the canonical form of the id in turn.end are not modelled, nor `wallClockMs`.
- Turn loop: an exception outside the try blocks (the fallback result of the executor), and `parseTaskResultBlock`, whose source is not part of this model; a run that is neither killed nor failed is "as reported".
- Turn loop: the scaffold and the headings of a prompt.
- ChildProcess.Run: real processes, signals and clocks are steps; whether a signal is delivered is given with the step.
- Prompt.CutKeepsLongest: `StringDecoder` is modelled by what its documentation says, the complete characters of the bytes.
- SessionId.DecodeSessionIdSegment: the white space `atob` would skip cannot pass the alphabet test and is not modelled; arguments that are not strings are excluded by the types.
- TranscriptWindow.MergeTranscriptWindow: `JSON.stringify` is a parameter, the signature of a turn.
- Conversations: channel, title, timestamps, tool columns and metadata other than the rotation link; the order by `updated_at`, which matters only when two conversations of one key are active; the unique index that the server's migrations may put on key and agent, whose refusal would be a failed transaction here.
- Capture: writers other than this plugin, a bounded queue, how long the wait for the worker is (it may time out at any moment), `flush`, a `shutdown` that is called without the end of a session, a second provider, and the prefetch cache.
- RankFusion: rounding (scores are reals); retrieval, embeddings and the computation of boosts.
- DenReducer: `parseEvent`; the order in which a record enumerates its keys is a parameter of the session list.
- DenReducer.ThoughtIsTail: the window counts UTF-16 code units and may begin with half of a surrogate pair, as in the source.
- SchemaZod: keywords other than type, enum, required, properties and items, which only narrow what a schema accepts; descriptions, which do not affect acceptance.
- SchemaZod.Complete: speaks of schemas; where `properties` is no object or `required` no list the value translated is none, and only what is built is stated. A number too large for a double counts as a number, and as an integer, whatever its digits were.
- Lines.LinesOfBytes: speaks of output that is well-formed UTF-8 as a whole.
- MeshFile: keys that JavaScript treats specially as property names; the text of error messages; the chains of checks and copies are loops over a table of the fields.
- Subscription: frames and `send`; timers of more than 2^31 - 1 ms.
- HTTP client methods, user interface, CLI, configuration, loggers, MCP mounts, on-disk session discovery and path encodings: plumbing, or single-branch facts.
