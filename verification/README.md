# Cucoudle, modelled

Cucoudle mirrors the terminal sessions of a desktop daemon, through a relay, to a phone. This project states in Dafny
what its state machines and stream transducers promise and proves it for every input and every run. Where the code
keeps a promise only under a condition, the condition is proved to be the exact one.

| file | what it models |
|---|---|
| `Sequences.dfy`, `Options.dfy` | bounded tails, flattening, stable sorting; absent values |
| `TerminalBuffer.dfy` | the phone's bounded text of a session |
| `Registry.dfy` | the daemon's replay buffers, the shared counter, the live / replay / snapshot choice |
| `ResumeRun.dfy` | whole runs of output, link losses and resynchronisation over a FIFO channel |
| `Reducer.dfy` | replay ordering and folding in the phone's reducer |
| `Interactions.dfy` | the life of structured interactions in the daemon, and their mirror on the phone |
| `Relay.dfy`, `PairingCodes.dfy` | the relay's pending requests, timers, registrations and links; pairing codes |
| `Frames.dfy` | the length-prefixed frame decoder and the shim's own re-implementation of it |
| `InputFilter.dfy` | the filter in front of the terminal emulator |
| `Render.dfy`, `StyledLines.dfy` | the rendered history and its copy on the phone; rows as styled runs |
| `LineCompaction.dfy` | lines prepared for reading on the phone |
| `Coordinator.dfy`, `MobileClient.dfy` | the phone's reconnect coordinator and the client below it |
| `RcBlock.dfy` | the block the installer keeps in shell configuration files |

A state machine has three forms: pure step functions on a state datatype, a class whose methods update fields step by
step as the source does and are proved equal to those functions, and lemmas over all sequences of steps. Ghost fields
such as `log` and `trace` record what happened; the program does not have them, and no step depends on them.
`ResumeRun` joins the registry and the phone's buffer in one such machine and has no class of its own.

## Where the code and the obvious promise differ

- Replay items are sent flat, without the `terminal.output` envelope the documented contract and the reducer need
  (apps/desktop/cucoudle_desktop/registry.py:209-213, docs/protocol-contracts.md:445). `Reducer.Wrapped` adds the
  envelope the code omits; `Reducer.FlatReplayIsHarmlessIff` says what flat items cost. `ResumeRun` has both modes.
  Over whole runs they leave the phone behind (`ResumeRun.IgnoredReplayIsHarmlessIff`,
  `ResumeRun.FlatReplayLeavesGap`).
- While the daemon's own relay connection is down it drops events and the phone stays online
  (`ResumeRun.SilentLossIsHarmlessIff`, `ResumeRun.SilentLossLeavesGap`). `ResumeRun.NeverBehindIff` puts both together.
- A chunk longer than the replay buffer evicts itself, and "live" is then answered whatever was missed
  (`Registry.LiveMeansNothingNewer`). PTY reads are shorter, so `ResumeRun` takes chunks within the limit.
- After 10,000 scrolled lines the rendered history stands still for ever (`Render.FullScrollbackFreezesHistory`), and
  every snapshot takes lines from the frames of other phones (`Render.BystanderIsCoherentIff`).
- `FrameDecoder.feed` loses the frames it completed when it then meets an oversized header
  (`Frames.ChunkingIsIrrelevantIff`).
- The input filter is not idempotent (`InputFilter.NotIdempotent`, `InputFilter.IdempotentIff`).
- The option bytes of a menu are computed from its highlighted row, which is no part of the signature that tells a
  re-rendered prompt from a new one (apps/desktop/cucoudle_desktop/interactions.py:79-85, 281-296). After the highlight
  has moved, an answer from the phone writes the old arrow keys (`Interactions.AnswersMatchTheScreenIff`,
  `Interactions.StaleAnswerIsWritten`).
- An accepted response may write nothing (`Interactions.WritesNothingIff`), and the delayed Enter of a text answer can
  confirm the next prompt (`Interactions.EnterLandsElsewhereIff`, `Interactions.EnterConfirmsNextPrompt`).
- The relay's pending keys collide for desktop ids with NUL (`Relay.NulMisroutes`, `Relay.KeysCollideIff`).
- The close of a desktop's socket does not fail every request forwarded to it: not those forwarded before a newer
  socket took over the id, before the socket took another id, or under the empty id, which the handlers take for none
  (`Relay.ClosedDesktopHasNoRequestsIff`, `Relay.ReplacedDesktopLeavesRequests`, `Relay.RenamedDesktopLeavesRequests`).
- `start(null)` leaves a run in flight alive (`Coordinator.UnpairingHoldsIff`), and the callback of an old pairing error
  can unseat a new pairing (`Coordinator.PairingHoldsIff`).
- Requests on a superseded socket are not rejected when that socket closes (`MobileClient.CloseAnswersIff`,
  `MobileClient.SupersededRequestWaits`).
- An attempt to connect whose socket factory fails leaves the old socket current but the client disconnected, so its
  requests wait and new ones are refused (`MobileClient.SocketIff`, `MobileClient.ConnectionIff`).
- The shell block is documented as idempotent; it is after two insertions (`RcBlock.InsertingIsIdempotentIff`), and
  texts with stray markers fail or lose text (`RcBlock.FailsIff`, `RcBlock.SecondInsertionKeepsTextIff`).

## Model

| member | source | states |
|---|---|---|
| TerminalBuffer.FreshChunksAppend | apps/mobile/src/state/terminalBuffer.ts:23-35 | Newer chunks, in order: the buffer holds the last 200,000 characters of everything appended, whether it is trimmed once or on every append, and the number of the last chunk. |
| TerminalBuffer.StaleChunksAreIgnored | apps/mobile/src/state/terminalBuffer.ts:27-29 | Chunks the buffer already counts are no-ops, in any order and number. |
| TerminalBuffer.ReplayInOrder | apps/mobile/src/state/terminalBuffer.ts:45-52 | Replaying chunks that come in order is appending them. |
| Sequences.StableSortIsStableSort | apps/mobile/src/state/terminalBuffer.ts:49-50 | The sort of a replay: ordered, a permutation, and equal numbers keep their order. |
| Registry.RetainedIsLongestFittingSuffix | apps/desktop/cucoudle_desktop/registry.py:56-64 | The replay buffer is the longest suffix of the session's output that meets both limits. |
| Registry.RetainedIncrementally | apps/desktop/cucoudle_desktop/registry.py:56-64 | Evicting on every append keeps what evicting from the whole output at once would keep. |
| Registry.NewestChunkIsRetained | apps/desktop/cucoudle_desktop/registry.py:56-64 | The newest chunk survives its own append if and only if it fits the byte limit. |
| Registry.SessionEntry.AppendOutput | apps/desktop/cucoudle_desktop/registry.py:56-64 | The eviction loop keeps the byte count, and its buffer is the retained suffix of the lengthened history. |
| Registry.SessionRegistry.Create | apps/desktop/cucoudle_desktop/registry.py:109-125 | A new session has no output; every other session is untouched. |
| Registry.SessionRegistry.RecordOutput | apps/desktop/cucoudle_desktop/registry.py:140-149 | One counter numbers the output of all sessions; an unknown session takes no number. |
| Registry.ChunksAreNumbered | apps/desktop/cucoudle_desktop/registry.py:100-102 | Each session's chunks carry increasing, positive numbers no larger than the counter. |
| Registry.SessionRegistry.SubscribeView | apps/desktop/cucoudle_desktop/registry.py:179-223 | The bounded buffer answers what the session's whole output determines: the answer is the one `Registry.AnswerIff` and `Registry.FirstAnswer` describe. |
| Registry.AnswerIff | apps/desktop/cucoudle_desktop/registry.py:199-223 | Over every log and for every asked number: live if and only if nothing retained is newer; else a snapshot if and only if some number above the asked one lies in front of everything retained, and so may be an evicted chunk's; else a replay of exactly the session's chunks newer than the asked number, in order. |
| Registry.FirstAnswer | apps/desktop/cucoudle_desktop/registry.py:199-223 | Asked without a number, a subscription is answered with a snapshot of everything retained, unless nothing is. |
| Registry.LiveMeansNothingNewer | apps/desktop/cucoudle_desktop/registry.py:206-207 | "live" is answered if and only if nothing newer than the asked number exists, or the newest chunk is longer than the buffer (then whatever was missed). |
| Registry.ReplayCoversTheRest | apps/desktop/cucoudle_desktop/registry.py:208-214 | A replay misses no chunk newer than the asked number: all evicted chunks are older. |
| Registry.ReplayEqualsNeverDisconnected | apps/desktop/cucoudle_desktop/registry.py:208-214 | A replay, as `terminal.output` events, leaves the phone exactly where receiving every chunk ever sent would have, trimming included. |
| Registry.SnapshotEqualsNeverDisconnected | apps/desktop/cucoudle_desktop/registry.py:215-223 | A snapshot shows a suffix of the session's text with its last number; it is the never-disconnected buffer if and only if eviction lost no character or what is retained fills the phone's buffer. |
| ResumeRun.NeverBehindIff | apps/desktop/cucoudle_desktop/relay_client.py:177-183 | Over any run, with replay items in envelopes or flat: the phone is never behind (online after everything on its way is delivered, and without output that is not sent any more) if and only if every step is harmless. |
| ResumeRun.OpenSessionShowsSuffix | apps/mobile/src/state/sessionReducer.ts:131-144 | Over any run of harmless steps, in any interleaving of outputs of all sessions, losses, resubscriptions and FIFO deliveries, the open session's text is a suffix of its output up to the number the phone counts: no gap, no duplicate, no reordering. |
| ResumeRun.HarmLeavesBehind | apps/desktop/cucoudle_desktop/relay_client.py:177-183 | A harmful step, after any harmless run, leaves the phone behind. |
| ResumeRun.LastSeqNeverDecreases | apps/mobile/src/state/terminalBuffer.ts:23-43 | The number the phone counts never goes back, not even across a snapshot. |
| ResumeRun.QuiescentPhoneIsCurrent | apps/mobile/src/application/connectionCoordinator.ts:183-197 | In a run of harmless steps, online with everything sent delivered, the phone has the session's last number. |
| ResumeRun.AnswerCatchesUp | apps/mobile/src/state/sessionReducer.ts:253-284 | An answer of any mode that the phone does not ignore brings it to the last number the desktop knew when it answered. |
| ResumeRun.SilentLossIsHarmlessIff | apps/desktop/cucoudle_desktop/relay_client.py:177-183 | The desktop drops events while its own relay link is down. What is on its way to the phone stays complete if and only if the phone is not going to listen, the event is of another session, or something on its way covers it. |
| ResumeRun.IgnoredReplayIsHarmlessIff | apps/desktop/cucoudle_desktop/registry.py:209-213 | The first answer after a reconnect, if it is a flat replay the phone ignores, is harmless if and only if every chunk in it that is newer than the phone's number is still going to be sent as an event. |
| ResumeRun.FlatReplayLeavesGap | apps/desktop/cucoudle_desktop/registry.py:209-213 | A concrete run, without any loss while the phone is connected, in which a flat replay leaves a gap in the shown text. |
| ResumeRun.SilentLossLeavesGap | apps/desktop/cucoudle_desktop/relay_client.py:177-179 | A concrete run in which such a loss leaves a gap in the shown text while the phone stays online. |
| Reducer.OrderReplayEvents | apps/mobile/src/state/sessionReducer.ts:92-118 | The two passes over maps of queues: every non-output event keeps its place, each output slot keeps its session, and each session's output is stably sorted by number. |
| Reducer.OrderingIsUnique | apps/mobile/src/state/sessionReducer.ts:110-117 | Those conditions determine the result. |
| Reducer.OrderingPermutes | apps/mobile/src/state/sessionReducer.ts:92-118 | The result is a permutation of the events. |
| Reducer.FoldingIsReplaying | apps/mobile/src/state/sessionReducer.ts:131-144 | Folding the ordered events through the reducer gives each session's buffer what `replayTerminalOutput` gives on its chunks alone, whatever is mixed in between. |
| Reducer.RemovalStartsAfresh | apps/mobile/src/state/sessionReducer.ts:210-247 | Once a session has been removed its buffer is gone, and what comes after starts a new one. |
| Reducer.WrappedReplayApplies | apps/mobile/src/state/sessionReducer.ts:282-284 | Replay items wrapped as `terminal.output` events bring the phone the replay view of the registry. |
| Reducer.FlatReplayIsHarmlessIff | apps/desktop/cucoudle_desktop/registry.py:209-213 | The daemon sends the items without an envelope, and the reducer ignores them: that is harmless if and only if the phone already has every chunk in them. |
| Interactions.RunKeepsInv | apps/desktop/cucoudle_desktop/daemon.py:331-428 | At every step boundary of every run: waiting if and only if an interaction is active; the active id is known; signature and bytes are those of the detection that registered it; none is active after exit. |
| Interactions.RegisteredIff | apps/desktop/cucoudle_desktop/daemon.py:331-361 | A prompt found in settled output is registered if and only if its session is live and the open interaction, if any, is of another prompt. |
| Interactions.StaysActiveIff | apps/desktop/cucoudle_desktop/daemon.py:331-428 | Over any run, an interaction is active from its registration exactly until its session's output settles on no prompt or on another one, it is answered by a response of a known type, or its session ends. |
| Interactions.NoPromptNoInteraction | apps/desktop/cucoudle_desktop/daemon.py:349-354 | When the output of a live session settles without a prompt none of its interactions is active afterwards; one that was is resolved as superseded, with the update to running. |
| Interactions.OutcomeIff | apps/desktop/cucoudle_desktop/daemon.py:528-569 | Over any run, which outcome a response has: session not found, interaction not found, stale, invalid, accepted or failed on the PTY, each with its exact condition in terms of what was requested and resolved before. |
| Interactions.EnterArmedIff | apps/desktop/cucoudle_desktop/daemon.py:589-619 | A delayed Enter is armed exactly for the accepted text answers that are to be submitted, until it fires. |
| Interactions.StatusIsAnnounced | apps/desktop/cucoudle_desktop/daemon.py:363-428 | Every session has the status last announced, and is live exactly from its creation to its end. |
| Interactions.QuietAfterExit | apps/desktop/cucoudle_desktop/daemon.py:411-428 | After a session has ended nothing more is announced of it and nothing is written to its PTY, not even a delayed Enter. |
| Interactions.TraceTellsAll | apps/desktop/cucoudle_desktop/daemon.py:331-428 | What a step announces and writes is determined by the trace before it: two daemons that have done the same do the same. |
| Interactions.RunsAnswerAtMostOnce | apps/desktop/cucoudle_desktop/daemon.py:528-569 | Over whole runs, no interaction is requested, resolved, answered on the PTY or completed with Enter twice. |
| Interactions.AtMostOnce | apps/desktop/cucoudle_desktop/daemon.py:543-569 | The trace law behind it: no two requests, resolutions, answers or Enters of one interaction in an orderly trace. |
| Interactions.WrittenAfterResolution | apps/desktop/cucoudle_desktop/daemon.py:543-554 | An answer is written right after the resolution of its interaction and the status change that goes with it. |
| Interactions.LateResponsesAreStale | apps/desktop/cucoudle_desktop/daemon.py:537-541 | After any resolution, a response changes nothing and is refused as stale. |
| Interactions.AcceptedAnswers | apps/desktop/cucoudle_desktop/daemon.py:549-567 | An accepted response writes the bytes bound when its interaction was requested, unless it is one of those that write nothing. |
| Interactions.WritesNothingIff | apps/desktop/cucoudle_desktop/daemon.py:549-567 | Those are: an option that is absent, not bound or bound to no bytes; a text that is empty or, when submitted, made of line ends only; and a cancellation. |
| Interactions.TextIsDelivered | apps/desktop/cucoudle_desktop/daemon.py:589-606 | A text answer is written as it is, less the line ends a submission replaces by Enter, as one bracketed paste where asked for; nothing for an empty one. |
| Interactions.AnswersMatchTheScreenIff | apps/desktop/cucoudle_desktop/daemon.py:356-361 | Over any run, at every moment while an interaction is active, choosing an option writes the bytes of the screen as it is if and only if every detection since its registration has bound the same bytes to that option. |
| Interactions.ActiveSince | apps/desktop/cucoudle_desktop/daemon.py:356-361 | While an interaction is active it keeps the bytes of its registration, and the screen settles only on prompts with its signature. |
| Interactions.StaleAnswerIsWritten | apps/desktop/cucoudle_desktop/interactions.py:79-85 | The signature leaves out the highlighted row the option bytes are computed from: a concrete run in which an answer writes bytes the screen no longer binds. |
| Interactions.EnterLandsElsewhereIff | apps/desktop/cucoudle_desktop/daemon.py:608-619 | Over any run, a delayed Enter lands on another interaction if and only if one is active in its session as it fires, that is, if the session has requested one since the answer and not resolved it. |
| Interactions.EnterConfirmsNextPrompt | apps/desktop/cucoudle_desktop/daemon.py:608-619 | A concrete run in which it does. |
| Interactions.RequestsAndResolutionsAlternate | apps/desktop/cucoudle_desktop/daemon.py:363-409 | Per session the events alternate: a request, its own resolution, the next request. |
| Interactions.PhoneMirrorsDesktop | apps/mobile/src/state/sessionReducer.ts:169-191 | Subscribing in any state and folding all later events, even with older events arriving after the answer, shows the daemon's active interaction, although the reducer clears by session only. |
| Interactions.Daemon.DetectInteraction | apps/desktop/cucoudle_desktop/daemon.py:331-361 | Keep, supersede, register or nothing, for each detection, as `Interactions.RegisteredIff`, `Interactions.StaysActiveIff` and `Interactions.NoPromptNoInteraction` tell over runs. |
| Interactions.Daemon.RegisterInteraction | apps/desktop/cucoudle_desktop/daemon.py:363-380 | Binds the prompt's bytes and signature, adds the id and marks the session waiting. |
| Interactions.Daemon.ResolveInteraction | apps/desktop/cucoudle_desktop/daemon.py:382-409 | Clears the binding before anything else and returns a waiting session to running. |
| Interactions.Daemon.HandleInteractionRespond | apps/desktop/cucoudle_desktop/daemon.py:528-569 | The checks in their order, then resolution, then the write. |
| Interactions.Daemon.OnExit | apps/desktop/cucoudle_desktop/daemon.py:411-428 | Resolves the active interaction and stops the session. |
| Relay.KeysCollideIff | apps/relay/src/state.ts:237-239 | Two desktop ids can share a pending key if and only if one, followed by NUL, starts the other followed by NUL. |
| Relay.KeysAreInjective | apps/relay/src/state.ts:237-239 | Keys tell desktop and request apart for ids without NUL. |
| Relay.RunKeepsInv | apps/relay/src/state.ts:58-240 | No socket under two ids; pending requests have distinct keys and their own armed timer, nothing else is armed, and each is tracked by the log and a link of its phone. |
| Relay.ReplyIff | apps/relay/src/handlers.ts:228-264 | Over any run: not paired if and only if no link has the socket; offline if and only if nobody is registered for the desktop of its first link; duplicate if and only if a request with that key is in flight; accepted if and only if it is forwarded, and then to that desktop. |
| Relay.SettledIff | apps/relay/src/state.ts:196-235 | When and how a pending request is settled: answered by a desktop registered under its key, timed out by its own timer, failed by the close of its desktop's socket, dropped by the close of its phone's, and by nothing else. |
| Relay.RegisteredIff | apps/relay/src/state.ts:65-102 | Who is registered after an event: a registration takes the id from its socket before and the socket from its other ids, a close takes the socket's id, and nothing else changes. |
| Relay.LinksAfter | apps/relay/src/state.ts:164-190 | The links after an event: added behind the links of the same desktop, and a phone's close removes the first link of its socket. |
| Relay.RequestsAreConserved | apps/relay/src/state.ts:196-235 | Every forwarded request is pending with its timer armed, or settled with its timer cleared, never both. |
| Relay.SettledAtMostOnce | apps/relay/src/state.ts:217-235 | Settled at most once: answered, timed out, failed by the desktop's close or dropped by the phone's. |
| Relay.RepliesReachTheirRequester | apps/relay/src/handlers.ts:79-104 | Every reply goes to the phone that asked; a desktop answers only requests forwarded to it under that id, unless the two desktop ids can share a key. |
| Relay.TimerFindsItsOwnRequest | apps/relay/src/state.ts:206-211 | A timer finds its own request and no later one that reuses the id. |
| Relay.ClosedPhoneHasNoRequests | apps/relay/src/handlers.ts:282-298 | After a phone's socket has closed, none of its requests is pending or timed, although only one of its links is removed. |
| Relay.ClosedDesktopHasNoRequestsIff | apps/relay/src/handlers.ts:269-280 | After a desktop's socket has closed, no request forwarded to that socket is pending if and only if each of them was forwarded under the non-empty id the socket still holds. |
| Relay.ReplacedDesktopLeavesRequests | apps/relay/src/state.ts:78-80 | A daemon that reconnects: the request forwarded to its old socket stays pending when that closes. |
| Relay.RenamedDesktopLeavesRequests | apps/relay/src/state.ts:75-77 | A desktop that registers again under another id: the request of the first id stays pending when it closes. |
| Relay.NulMisroutes | apps/relay/src/state.ts:237-239 | With NUL in a desktop id a phone is sent the answer of another desktop. |
| Relay.RelayState.RegisterDesktop | apps/relay/src/state.ts:65-88 | The socket leaves its other ids, and the id is set in its place of the order. |
| Relay.RelayState.RemoveDesktopBySocket | apps/relay/src/state.ts:94-102 | Removes and returns the first id of the socket. |
| Relay.RelayState.AddPending | apps/relay/src/state.ts:196-215 | Refuses a key in flight, else stores the request and arms its timer. |
| Relay.RelayState.SettleMatching | apps/relay/src/state.ts:217-235 | Takes every matching request off the table, in order, and clears its timer. |
| Relay.RelayState.HandleRequest | apps/relay/src/handlers.ts:228-264 | Forwards or refuses a phone's request, with the reply `Relay.ReplyIff` determines. |
| Relay.RelayState.HandleResponse | apps/relay/src/handlers.ts:79-104 | Settles the request a desktop answers. |
| Relay.RelayState.OnTimeout | apps/relay/src/state.ts:206-211 | Settles the timer's request. |
| Relay.RelayState.OnDesktopClose | apps/relay/src/handlers.ts:269-280 | Fails every request of the closed desktop. |
| Relay.RelayState.OnMobileClose | apps/relay/src/handlers.ts:282-298 | Drops every request of the closed phone. |
| PairingCodes.TableHoldsUntouchedCodes | apps/relay/src/state.ts:104-138 | The stored table is exactly the codes created, not superseded for their desktop and not tried since. |
| PairingCodes.PairsIff | apps/relay/src/state.ts:127-138 | A code is accepted if and only if it was created for that desktop, no newer code followed, it was not tried before and it has not expired; it is reported as expired if and only if only the last fails. |
| PairingCodes.OneCodePerDesktop | apps/relay/src/state.ts:110-118 | At most one code per desktop is stored. |
| PairingCodes.PairsOncePerCreation | apps/relay/src/state.ts:127-138 | Between two acceptances a code has been created anew. |
| PairingCodes.Pairings.CreatePairing | apps/relay/src/state.ts:104-125 | Deletes the desktop's codes and takes the first draw that is unused. |
| PairingCodes.Pairings.ConsumePairing | apps/relay/src/state.ts:127-138 | The verdict the history determines; a code tried for its desktop is gone. |
| Frames.DecodeInvertsEncode | apps/desktop/cucoudle_desktop/ipc.py:52-83 | Encoded frames followed by an incomplete tail decode to those frames and that tail. |
| Frames.EncodeInvertsDecode | apps/desktop/cucoudle_desktop/ipc.py:62-83 | For every byte stream the decoded frames encode back to it, and what remains holds no complete frame. |
| Frames.WireFormat | apps/desktop/cucoudle_desktop/ipc.py:25-55 | A frame on the wire: its kind, the length of its payload as four digits to base 256, the most significant first, and the payload. |
| Frames.EncodesIff | apps/desktop/cucoudle_desktop/ipc.py:52-55 | Encoding refuses exactly the frames that no stream decodes to. |
| Frames.OversizedIff | apps/desktop/cucoudle_desktop/ipc.py:72-76 | A header is judged as soon as its last digit has come, by its digits alone. |
| Frames.FrameDecoder.Feed | apps/desktop/cucoudle_desktop/ipc.py:68-83 | Keeps the shortest incomplete tail; an oversized header raises, loses the frames completed in the same call and stays. |
| Frames.FramesSurviveChunking | apps/desktop/cucoudle_desktop/ipc.py:62-83 | Frames within the limit arrive exactly, under every chunking of their encodings. |
| Frames.ChunkingIsIrrelevantIff | apps/desktop/cucoudle_desktop/ipc.py:75-76 | The frames delivered do not depend on the chunking if and only if no oversized header follows a complete frame. |
| Frames.DispatchSimulates | apps/desktop/cucoudle_desktop/shim_template.py:201-232 | The shim's loop, which strips headers early, simulates the decoder up to the first EXIT or ERROR. |
| Frames.ShimAgreesWithDecoder | apps/desktop/cucoudle_desktop/shim_template.py:185-232 | For every stream without an oversized header and every chunking, the shim shows the STDOUT payloads of the decoder's frames up to the first EXIT or ERROR, and ends on it. |
| Frames.ShimEndsIff | apps/desktop/cucoudle_desktop/shim_template.py:201-232 | The shim stops if and only if a frame of kind 0x83 or 0x84 has come, with the first of them, and shows exactly the payloads of the frames of kind 0x82 in front of it. |
| Frames.ShimReader.ReceiveChunk | apps/desktop/cucoudle_desktop/shim_template.py:200-231 | The nested loops dispatch one chunk. |
| InputFilter.ReadingIsLossless | apps/desktop/cucoudle_desktop/render.py:29-68 | Tokens and tail spell the input; each sequence ends at its first byte in 0x40-0x7E; the tail holds no complete token. |
| InputFilter.QueryIff | apps/desktop/cucoudle_desktop/render.py:49-68 | Byte by byte, which control sequences are complete, and which of them are dropped as queries. |
| InputFilter.BytesAreConserved | apps/desktop/cucoudle_desktop/render.py:29-68 | Input length = output + dropped queries + held back. |
| InputFilter.CutsAreIrrelevant | apps/desktop/cucoudle_desktop/render.py:29-35 | Output and held-back bytes do not depend on how the stream is cut into reads. |
| InputFilter.ReadBackIff | apps/desktop/cucoudle_desktop/render.py:29-68 | Tokens written out read back as the same tokens if and only if no lone ESC comes to stand before a bracket or at the end. |
| InputFilter.IdempotentIff | apps/desktop/cucoudle_desktop/render.py:57-66 | Filtering the output again changes nothing and holds nothing back if and only if, in what was let through, no lone ESC is last and every sequence a lone ESC opens by standing before a bracket is closed and no query. |
| InputFilter.IdempotentWhenSeparated | apps/desktop/cucoudle_desktop/render.py:57-66 | That is so when no lone ESC has come to stand before a bracket or at the end. |
| InputFilter.FindFinal | apps/desktop/cucoudle_desktop/render.py:49-51 | The next final byte, or the end. |
| InputFilter.NotIdempotent | apps/desktop/cucoudle_desktop/render.py:57-66 | In general it is not idempotent: dropping a query can form a new one. |
| InputFilter.RendererInputFilter.Process | apps/desktop/cucoudle_desktop/render.py:29-68 | The byte-scanning loop computes the filtered tokens and the tail of the pending bytes and the data. |
| Render.SolePhoneIsCoherent | apps/desktop/cucoudle_desktop/render.py:122-154 | After a snapshot and the following frames, with any stale or repeated ones mixed in, the only phone holds the renderer's own last 1000 lines, its number, and the screen of the last frame, or of the snapshot when no frame has followed. |
| Render.SnapshotShowsAll | apps/desktop/cucoudle_desktop/render.py:148-154 | After any run, a phone that loads a snapshot shows the screen as it was last fed, the end of all lines drained, the snapshot's own drain included, and the number of frames taken. |
| Render.PhoneShowsFrames | apps/mobile/src/state/renderBuffer.ts:19-37 | In general a phone holds the end of the lines its frames carried. |
| Render.HistoryIsDrained | apps/desktop/cucoudle_desktop/render.py:122-129 | The renderer's history is the end of all lines drained. |
| Render.BystanderIsCoherentIff | apps/desktop/cucoudle_desktop/render.py:148-154 | A snapshot for one phone takes lines from the frames of another: that one is still coherent if no line was taken or 1000 lines have been framed since; for lines that differ, only then. |
| Render.EveryLineDrainedOnceIff | apps/desktop/cucoudle_desktop/render.py:122-126 | Every scrolled line is drained once, in order, if and only if no more than 10,000 lines have scrolled off. |
| Render.FullScrollbackFreezesHistory | apps/desktop/cucoudle_desktop/render.py:122-126 | Once the emulator's scrollback is full and consumed, no line is ever drained again and the history stands still. |
| Render.TerminalRenderer.DrainHistory | apps/desktop/cucoudle_desktop/render.py:122-129 | Takes what is past the consumed mark and trims the history in place. |
| Render.TerminalRenderer.NextFrame | apps/desktop/cucoudle_desktop/render.py:137-146 | The next frame: its number, the lines drained and the screen. |
| Render.TerminalRenderer.Snapshot | apps/desktop/cucoudle_desktop/render.py:148-154 | The snapshot, after a drain that no frame reports; what it shows is `Render.SnapshotShowsAll`. |
| StyledLines.RenderLine | apps/desktop/cucoudle_desktop/render.py:89-105 | The loops make the one canonical line that shows the row's columns (`StyledLines.RenderedRowShowsColumns`). |
| StyledLines.RenderedRowShowsColumns | apps/desktop/cucoudle_desktop/render.py:70-105 | Column by column up to the last visible one: the cell's own text, or a space where it has none; its own colours, absent when they are the default; exchanged, with black and white for the defaults, when it is reversed; and its bold, italics and underline. |
| StyledLines.ShownRowIsUnique | apps/desktop/cucoudle_desktop/render.py:89-105 | Only one canonical line shows a row so. |
| StyledLines.RenderedRowIsCanonical | apps/desktop/cucoudle_desktop/render.py:89-105 | A rendered row shows exactly its cells up to the last visible column, has no empty run and no two neighbours in one style, and is the only such line. |
| StyledLines.RestIsInvisible | apps/desktop/cucoudle_desktop/render.py:91-95 | Nothing to the right of the used width is visible. |
| StyledLines.CellsToRuns | apps/mobile/src/features/session/terminalPresentation.ts:75-86 | The loop computes the run-length code. |
| StyledLines.RunsShowTheirCells | apps/mobile/src/features/session/terminalPresentation.ts:75-86 | The runs show exactly what the cells show. |
| StyledLines.RunsAreCanonical | apps/mobile/src/features/session/terminalPresentation.ts:75-86 | No two neighbouring runs have the same style. |
| StyledLines.CanonicalFormIsUnique | apps/mobile/src/features/session/terminalPresentation.ts:75-86 | A styled text has only one such code. |
| LineCompaction.CompactCells | apps/mobile/src/features/session/terminalPresentation.ts:48-73 | The in-place pops, the splice and the gap loop compute the compacted line. |
| LineCompaction.CompactingKeepsInk | apps/mobile/src/features/session/terminalPresentation.ts:48-73 | Only blanks are dropped: every other cell stays, in order, with its style. |
| LineCompaction.CompactGapByGap | apps/mobile/src/features/session/terminalPresentation.ts:48-73 | Gap by gap: no blank stays behind the last cell, the last four of those in front of the first stay, and between two cells a gap of four or more keeps its first blank and a narrower one all of them. A line of blanks becomes empty. |
| LineCompaction.InkAndGapsTell | apps/mobile/src/features/session/terminalPresentation.ts:48-73 | Ink and gaps make the line, so that and `LineCompaction.CompactingKeepsInk` determine the compacted line. |
| LineCompaction.CleaningKeepsMarks | apps/mobile/src/features/session/terminalPresentation.ts:34-39 | Cleaning leaves all marks in their order, a blank for every blank and no-break space, two for every tab, and nothing else. |
| LineCompaction.CompactingTwice | apps/mobile/src/features/session/terminalPresentation.ts:48-73 | Compaction is idempotent. |
| LineCompaction.CompactIff | apps/mobile/src/features/session/terminalPresentation.ts:48-73 | A line is left alone if and only if it has no trailing blank, an indent of at most four cells and gaps of fewer than four; compaction makes such lines. |
| LineCompaction.RunsFallApart | apps/mobile/src/features/session/terminalPresentation.ts:41-46 | Runs of clean cells fall apart into those cells. |
| LineCompaction.PresentingTwice | apps/mobile/src/features/session/terminalPresentation.ts:88-92 | Cleaning, compacting and coding a line that was prepared so before gives it back. |
| Coordinator.RunKeepsInv | apps/mobile/src/application/connectionCoordinator.ts:88-257 | Over every interleaving: status is the last one entered, runs act in version order along their course, every suspended run has done exactly the steps before its await, and the one armed timer is the known one. |
| Coordinator.OnlineIsEarned | apps/mobile/src/application/connectionCoordinator.ts:153-199 | A run goes online only after it has begun, resumed, dispatched the list and, when it asked, the subscription, in this order; it does nothing afterwards. |
| Coordinator.OpenSessionIsSubscribedIff | apps/mobile/src/application/connectionCoordinator.ts:183-197 | Whatever comes before and after, a run whose list comes while a session is open goes online only after asking for its subscription and dispatching the answer, and one whose list comes without goes online without; each takes the steps of its course in order. |
| Coordinator.BeginsIff | apps/mobile/src/application/connectionCoordinator.ts:113-160 | A run begins exactly when the coordinator is started with a profile, retried with one, or its timer fires, before disposal; it then has the next version, the right status and no timer. |
| Coordinator.OneTransport | apps/mobile/src/application/connectionCoordinator.ts:122-131 | A connection is resynchronised only when no other is up, and only one that is up is closed. |
| Coordinator.DisposedIsSilent | apps/mobile/src/application/connectionCoordinator.ts:247-254 | Disposal closes the socket that is up, cancels the timer and does nothing else; after it nothing is done and nothing reported, whatever happens. |
| Coordinator.RunsActInOrder | apps/mobile/src/application/connectionCoordinator.ts:153-199 | No run acts after a newer one has acted. |
| Coordinator.SupersededRunsAreSilent | apps/mobile/src/application/connectionCoordinator.ts:159-198 | After a newer run has begun, or disposal, a run takes no further step, however its awaits settle. |
| Coordinator.EventsPassOnlyOnline | apps/mobile/src/application/connectionCoordinator.ts:213-217 | An event was dispatched only after a run went online and before any other change of status. |
| Coordinator.EventsPassIff | apps/mobile/src/application/connectionCoordinator.ts:213-217 | An arriving event is dispatched if and only if, before disposal, a run has gone online and no status has been entered since. |
| Coordinator.OneTimer | apps/mobile/src/application/connectionCoordinator.ts:107-120 | At most one timer is armed, it is the one that can be cancelled, and only with a profile and before disposal. |
| Coordinator.NeverStuck | apps/mobile/src/application/connectionCoordinator.ts:113-120 | While it is connecting, reconnecting or resynchronising with a profile, a run is in flight or the timer is armed. |
| Coordinator.FailuresAreJudged | apps/mobile/src/application/connectionCoordinator.ts:133-151 | After any run: an absent desktop means recovery, and off the network until someone starts or retries, whatever else happens; a pairing error drops profile and timer; any other failure arms the one timer unless it is armed, and then the coordinator is reconnecting. |
| Coordinator.InvalidationIff | apps/mobile/src/application/connectionCoordinator.ts:136-145 | The callback that follows a pairing error ends in `pairingRequired` if and only if it succeeds before disposal. |
| Coordinator.QuietUntilAsked | apps/mobile/src/application/connectionCoordinator.ts:201-212 | In recovery, with nothing in flight, no sequence of timers, closes, events and late outcomes starts a run. |
| Coordinator.LostSocketReconnects | apps/mobile/src/application/connectionCoordinator.ts:201-212 | After any run, a socket lost while there was a connection leads to a reconnect: whatever uneventful things happen until the timer fires, a new run begins then. |
| Coordinator.UnpairingHoldsIff | apps/mobile/src/application/connectionCoordinator.ts:220-229 | `start(null)` does not advance the version: it keeps the coordinator from going online without a profile if and only if no run is in flight. |
| Coordinator.PairingHoldsIff | apps/mobile/src/application/connectionCoordinator.ts:136-145 | The callback after a pairing error ignores the version: a new pairing can still end in `pairingRequired` if and only if such a callback is pending. |
| Coordinator.ConnectionCoordinator.BeginRun | apps/mobile/src/application/connectionCoordinator.ts:153-160 | The synchronous beginning of a run. |
| Coordinator.ConnectionCoordinator.Settle | apps/mobile/src/application/connectionCoordinator.ts:160-198 | What happens when an awaited operation settles, with the version guards. |
| Coordinator.ConnectionCoordinator.GoOn | apps/mobile/src/application/connectionCoordinator.ts:161-195 | The current run goes on from its await to the next; which course it takes is `Coordinator.OpenSessionIsSubscribedIff`. |
| Coordinator.ConnectionCoordinator.Fail | apps/mobile/src/application/connectionCoordinator.ts:133-151 | The three kinds of failure. |
| Coordinator.ConnectionCoordinator.Schedule | apps/mobile/src/application/connectionCoordinator.ts:113-120 | Arms the timer at most once. |
| Coordinator.ConnectionCoordinator.StartWith | apps/mobile/src/application/connectionCoordinator.ts:220-230 | Starts with a profile or without one. |
| Coordinator.ConnectionCoordinator.RetryNow | apps/mobile/src/application/connectionCoordinator.ts:232-236 | Retries at once. |
| Coordinator.ConnectionCoordinator.OnTimer | apps/mobile/src/application/connectionCoordinator.ts:116-119 | The timer's callback. |
| Coordinator.ConnectionCoordinator.OnDisconnected | apps/mobile/src/application/connectionCoordinator.ts:201-212 | The client reports a lost socket. |
| Coordinator.ConnectionCoordinator.Close | apps/mobile/src/application/connectionCoordinator.ts:247-254 | Disposal advances the version and cancels the timer. |
| MobileClient.RunKeepsInv | apps/mobile/src/protocol/mobileClient.ts:46-186 | Over every run, requests and attempts are conserved and the current socket, attempt and state agree. |
| MobileClient.RequestsSettleOnce | apps/mobile/src/protocol/mobileClient.ts:62-82 | Every request is answered at most once, and waits if and only if it was asked and not answered. |
| MobileClient.AttemptsConcludeOnce | apps/mobile/src/protocol/mobileClient.ts:102-141 | Every attempt to connect concludes at most once, all but the newest have concluded, and the client is connected only through an attempt that succeeded. |
| MobileClient.OnlyNewestSucceeds | apps/mobile/src/protocol/mobileClient.ts:103-124 | An attempt that succeeds is the newest at that time. |
| MobileClient.AttemptOutcomeIff | apps/mobile/src/protocol/mobileClient.ts:102-141 | Over every run, an attempt succeeds if and only if its socket was made and the first event to decide it is that socket's opening, and fails if and only if the factory threw or something else came first: another attempt, or a close or error of its socket. |
| MobileClient.ConnectionIff | apps/mobile/src/protocol/mobileClient.ts:95-141 | What the newest attempt has made of the client: connecting until something decides it, connected from its success to the close of its socket, otherwise disconnected; its socket stays current until it closes. |
| MobileClient.SocketIff | apps/mobile/src/protocol/mobileClient.ts:95-141 | A socket is the current one from its making to its close or the making of the next; an attempt without a socket leaves it current. |
| MobileClient.RequestWaitsIff | apps/mobile/src/protocol/mobileClient.ts:149-174 | A new request waits, on the current socket, if and only if the client is connected and sending works; otherwise it fails at once. No other request is touched. |
| MobileClient.AnsweredIff | apps/mobile/src/protocol/mobileClient.ts:62-100 | A waiting request is answered with what a response to it says, from whichever socket, or as failed when the current socket closes; anything else leaves it waiting. |
| MobileClient.ListenersKnow | apps/mobile/src/protocol/mobileClient.ts:57-93 | The listeners always know the connection and get every event exactly once, from whichever socket. |
| MobileClient.RejectedInOrder | apps/mobile/src/protocol/mobileClient.ts:62-65 | Requests that fail together fail in the order they were made. |
| MobileClient.CloseAnswersIff | apps/mobile/src/protocol/mobileClient.ts:95-100 | The close of the socket that carries a waiting request answers it if and only if that socket is still the current one. |
| MobileClient.SupersededRequestWaits | apps/mobile/src/protocol/mobileClient.ts:103-129 | A concrete run with a request that its own socket's close leaves waiting. |
| MobileClient.Client.BeginConnect | apps/mobile/src/protocol/mobileClient.ts:103-140 | Cancels the attempt before it and makes the new socket current. |
| MobileClient.Client.OnOpen | apps/mobile/src/protocol/mobileClient.ts:118-124 | Only the current, unsettled attempt succeeds. |
| MobileClient.Client.OnClose | apps/mobile/src/protocol/mobileClient.ts:126-129 | Fails the attempt and, for the current socket, every waiting request. |
| MobileClient.Client.OnResponse | apps/mobile/src/protocol/mobileClient.ts:67-82 | Answers the waiting request of that id, whichever socket it comes from. |
| MobileClient.Client.SendRequest | apps/mobile/src/protocol/mobileClient.ts:149-174 | Refuses, or stores and sends. |
| RcBlock.RemovingUndoesInserting | apps/desktop/cucoudle_desktop/installer.py:94-112 | For text without a start marker, removing the inserted block gives the text with exactly one line end at its end; that is the text itself if and only if it ended so. |
| RcBlock.RemovingChangesNothingIff | apps/desktop/cucoudle_desktop/installer.py:106-112 | Removing leaves a text as it is if and only if it does not have both markers. |
| RcBlock.BlockPutsDirFirst | apps/desktop/cucoudle_desktop/installer.py:85-91 | Sourcing the block puts the directory in front of the search path and leaves the rest as it was, in POSIX shells and in fish, for every directory that double quotes leave as it is. |
| RcBlock.BlockTwiceIsHarmless | apps/desktop/cucoudle_desktop/installer.py:148-149 | A shell that reads the block from two files finds every program where it finds it after one. |
| RcBlock.InsertingIsIdempotentIff | apps/desktop/cucoudle_desktop/installer.py:94-103 | The first insertion is a fixed point if and only if the text is empty, or shows something and does not end in a blank line. |
| RcBlock.InsertingSettles | apps/desktop/cucoudle_desktop/installer.py:94-103 | Two insertions always reach a fixed point, for every text that can be written at all. |
| RcBlock.ReplacingTwice | apps/desktop/cucoudle_desktop/installer.py:97-100 | Replacing an existing block again changes nothing. |
| RcBlock.RemovingAfterReplacingIff | apps/desktop/cucoudle_desktop/installer.py:97-112 | Replacing a block does not change what removing leaves, unless the text ends right at its end marker. |
| RcBlock.FailsIff | apps/desktop/cucoudle_desktop/installer.py:97-111 | Both functions fail on the same texts: those with an end marker but none after the first start marker. |
| RcBlock.EndBeforeStartFails | apps/desktop/cucoudle_desktop/installer.py:97-99 | Such a text. |
| RcBlock.SecondInsertionKeepsTextIff | apps/desktop/cucoudle_desktop/installer.py:94-103 | For every text without a whole block, the second insertion keeps the text, up to the line ends at its end, if and only if the text has no start marker. |
| RcBlock.StrayStartLosesText | apps/desktop/cucoudle_desktop/installer.py:97-103 | With a start marker and no end marker the second insertion replaces everything from the first marker on. |
| MobileClient.Client.OnError | apps/mobile/src/protocol/mobileClient.ts:130-135 | Only an unsettled attempt of the current socket fails and is reported. |
| MobileClient.Client.RejectPending | apps/mobile/src/protocol/mobileClient.ts:62-65 | Rejects all waiting requests in the order they were made. |
| Coordinator.ConnectionCoordinator.OnEvent | apps/mobile/src/application/connectionCoordinator.ts:213-217 | Events pass online only. |
| Frames.DecodeAppend | apps/desktop/cucoudle_desktop/ipc.py:68-83 | Decoding a longer stream continues where decoding its front stopped. |
| Frames.OversizedDeliversNothing | apps/desktop/cucoudle_desktop/ipc.py:75-76 | After an oversized header nothing is delivered any more. |
| InputFilter.ReadAppend | apps/desktop/cucoudle_desktop/render.py:29-35 | Reading a longer stream continues where reading its front stopped. |
| InputFilter.FindEscape | apps/desktop/cucoudle_desktop/render.py:36-37 | The next ESC, or none. |
| Reducer.QueueOutputs | apps/mobile/src/state/sessionReducer.ts:93-100 | Each queue holds its session's output, in order. |
| Reducer.SortQueues | apps/mobile/src/state/sessionReducer.ts:101-108 | Each queue is stably sorted. |
| Reducer.FillSlots | apps/mobile/src/state/sessionReducer.ts:110-117 | The slots are filled from the queues. |
| Reducer.ChunksOfSorted | apps/mobile/src/state/sessionReducer.ts:102-107 | Sorting events sorts the chunks they carry, malformed events or not. |
| LineCompaction.SqueezeGaps | apps/mobile/src/features/session/terminalPresentation.ts:57-72 | The loop squeezes every gap between two cells and no other. |
| Render.NothingIsLostBelowTheLimit | apps/desktop/cucoudle_desktop/render.py:122-126 | Below the limit the lines drained are the beginning of the lines scrolled off. |
| Render.LastTaken | apps/desktop/cucoudle_desktop/render.py:148-154 | What other phones' snapshots take away is exactly what frames lack. |
| RcBlock.PaddingIsStable | apps/desktop/cucoudle_desktop/installer.py:100 | Padding text in front of a block twice is padding it once. |
| RcBlock.SplitAtMarker | apps/desktop/cucoudle_desktop/installer.py:98-99 | A marker behind text without it is where the split cuts. |

## Left out

- ResumeRun.OpenSessionShowsSuffix: takes chunks within the replay limit (PTY reads are), because the code breaks the promise for longer ones; `Registry.LiveMeansNothingNewer` says when. It takes harmless steps, which `ResumeRun.NeverBehindIff` proves to be the exact condition: no event lost that the phone still needs, and no flat replay ignored whose chunks will not come again.
- Registry.ReplayEqualsNeverDisconnected: takes the replay items in their envelopes, which the code omits; `Reducer.FlatReplayIsHarmlessIff` and `ResumeRun.IgnoredReplayIsHarmlessIff` state the difference.
- ResumeRun.AnswerCatchesUp: the same; in flat mode a replay is ignored.
- ResumeRun.QuiescentPhoneIsCurrent: takes harmless steps, as `ResumeRun.OpenSessionShowsSuffix` does.
- Render.SolePhoneIsCoherent: takes scrolled lines as rendered once, so a resize between scrolling and draining, and an emulator that clears its own scrollback, are not modelled.
- RcBlock.RemovingUndoesInserting: takes a directory whose line holds no end marker.
- RcBlock.BlockPutsDirFirst: takes a directory without quotes, dollar signs, backquotes, backslashes and line ends, which the code writes without escaping them; of the shells only comments, blank lines and the assignment of the search path are modelled.
- Coordinator.RunKeepsInv: capabilities and the result values of requests are not modelled, only their outcomes and order.
- Sessions that are not open on the phone, and numbers starting again after a restart of the daemon: gaps are possible there by design.
- Sockets, the WebSocket server, PTYs, terminal modes, files and stored secrets: only the step each of them triggers; closing a replaced desktop's socket is one of these.
- pyte, zod, Pydantic, regular expressions, JSON and UTF-8 decoding: the emulator is a bounded scrollback and a screen, prompt detection any function of the settled output.
- Randomness and clocks: fresh ids, drawn codes, timer handles and times are inputs; fresh ids are fresh.
- Lengths: one character type, where the phone counts UTF-16 units and the desktop code points.
- Audit logging, redaction, capability negotiation, mobile session tokens, inbox sorting, activity facts, dismissed attention, profile validation and configuration migration.
- The statuses starting and error, titles, and the other fields of a session.
- `read_frame`, the one-shot reader beside the frame decoder, and the shim's keyboard side.
- Row kinds, blank-row collapsing and the grid width in the presentation of a terminal.
- React components, navigation, themes, command-line output and QR codes.
