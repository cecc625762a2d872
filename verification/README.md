# A verified model of the remote protocol and the log

This project models the parts of the application where state, order and
interleaving matter, and proves what they promise:

- **The relay object** (`relay/src/host-relay.ts`): host links that prove
  themselves, numbered device connections carried over the one ready host,
  alarms, a persisted id counter and rate window, and hibernation. `Relay.dfy`
  is the state machine, `HostRelay.dfy` the object with the handlers as methods
  on its fields, `RelayCore.dfy` and `RelayTalk.dfy` the invariants of every run,
  `RelayFrames.dfy` what is sent to host and device links, `RelayRates.dfy` the
  message budget of a device, `RelayEnds.dfy` what a step does to each link.
  The handler of a proof is split at the one await that is not a storage access;
  `RelayVerdicts.dfy` has the runs in which every proof is judged before anything
  else happens, and what the others can do.
- **The protocol client** (`src/remote/client.ts`): attempts, generations, eight
  request slots, a queue, timeouts and retries. `Client.dfy` is the state
  machine, `ProtocolClient.dfy` the object, `ClientProofs.dfy` the invariants,
  `ClientOutcomes.dfy` how attempts end and when the client gives up.
- **Snapshot and stream reconciliation** (`src/rowSync.ts`): `RowSync.dfy`.
- **The conversation log** (`src/helpers/mergeTurns.ts`,
  `src/helpers/transcript.ts`, `src/helpers/mirrorTurn.ts`): turn rows merged into
  reduced records, and store-only items carried over a rebuild. `ChatLog.dfy`,
  `MergeTurns.dfy`, `MergeLaws.dfy`, `MergeShows.dfy`, `PageTurns.dfy`, `Carry.dfy`,
  `CarryLaws.dfy`, and `RebuildLaws.dfy` for the two stages together.
- **Codecs and text transformers**: frames (`Frames.dfy`), UTF-8 sizes
  (`Utf8.dfy`), strict base64url (`Base64url.dfy`), JSONC to JSON (`Jsonc.dfy`,
  `JsoncLaws.dfy`), the size-bounded handoff transcript (`Handoff.dfy`,
  `HandoffLaws.dfy`, `HandoffLines.dfy`), and the fixed-window rate limiter (`Limiter.dfy`).
- **Environments** (`src/store/environmentSwitch.ts`,
  `src/store/environments.ts`): one visible view and parked stashes refine a map
  from environment to view. `Environments.dfy`, `Descriptors.dfy`,
  `EnvironmentStore.dfy`.
- **The remediation ladder** (`src/readiness.ts`, `src/mergeGate.ts`):
  `Readiness.dfy`.

Code that changes state step by step is a method on an object, tied by its
`ensures` to one step of a state machine on values; the properties are lemmas
about that machine and its runs. For each failure listed next, the model keeps the
code as it is, one member gives the exact condition under which the promise holds,
and another gives a run or an input on which it does not.

## What the proofs turned up

- A wrong second proof sent on a host link before the right first one is judged
  takes the ready host away from its devices: a failing verdict counts the link as
  pending, so its devices are left open without a host. `RelayTalk.OrphansExactly`
  gives the exact condition at a step, `RelayTalk.HeldExactly` over a run, and
  `RelayTalk.OrphaningRun` a run.
- A right proof judged after its link has ended makes the ended link the host,
  ends the live host and closes every device (`RelayVerdicts.RevivalReplaces`, and
  `RelayVerdicts.RevivingRun` for a run). Links end for good exactly when every
  matching verdict finds its link not yet ended (`RelayVerdicts.EndsExactly`).
  Neither happens when proofs are judged promptly (`RelayVerdicts.EveryPromptRun`).
- A handshake that times out leaves its request slot taken. After eight of them in
  a row the hello of the next attempt is queued
  (`ClientProofs.UnansweredHandshakesStarve`), and no later run sends it
  (`ClientProofs.NeverSent`) unless the send of one of the eight is reported failed
  after all (`ClientProofs.FailedSendFrees`).
- `src/rowSync.ts:48-50` calls a second settle idempotent. One that brings a
  snapshot throws away the events applied since it was read; which ids are right
  in the end is exact in `RowSync.SecondSettle`, and `RowSync.StaleSnapshotLosesRow`
  loses a row. A row deleted and added back while the snapshot was in flight may
  change places (`RowSync.OrderKeptExactly`, `RowSync.RevivedRowMoves`).
- The one-row form keeps its buffer when it settles, so a second settle commits the
  buffered value again, over newer ones (`RowSync.LoadSingleTwice`,
  `RowSync.SecondSettleBringsBack`).
- Items carried over a rebuild for which no anchor is found go to the end, and
  the next rebuild moves them up, to right after the last item that can anchor
  (`CarryLaws.RebuildTwice`, `CarryLaws.FollowUpMovesUp`).
- Of several commas before a closing bracket only the last is deleted, so
  reducing twice can differ from reducing once (`JsoncLaws.SettledIffSingle`,
  `JsoncLaws.TwoCommas`).
- Forgetting the remote environment on screen puts This Mac on screen with the
  forgotten one's view (`Environments.RemoveMeans`, and
  `Environments.ForgottenViewStays` for a run); the code calls that branch a
  backstop.

## Model

| member | source | states |
|---|---|---|
| RelayCore.EveryRun | relay/src/host-relay.ts:124-448 | over every run of attaches, messages, verdicts, closes, alarms and hibernations: at most one ready host, at most eight live devices, connection ids strictly increasing inside u32, storage mirrors the instance, an alarm covers every pending deadline, and every proof under examination arrived in time |
| RelayCore.NotifyBudget | relay/src/host-relay.ts:433-448 | whatever interval of one window's length is chosen, at most twice the NOTIFY limit was let through in it, across link replacement and hibernation |
| RelayCore.AlarmClears | relay/src/host-relay.ts:357-367 | after an alarm step no link is pending past its deadline, and a link that was not overdue is untouched |
| RelayCore.PromotedByProof | relay/src/host-relay.ts:153-188 | a link becomes the host only through a proof that matched and arrived by the deadline, however late the alarm, and from pending unless the verdict revives an ended link |
| RelayCore.StepKeeps | relay/src/host-relay.ts:292-367 | every handler keeps the invariant of the relay |
| RelayCore.HibernateKeeps | relay/src/host-relay.ts:98-109 | a rebuild from storage finds exactly the state the instance had |
| RelayCore.RunSameIds | relay/src/host-relay.ts:245-288 | device links are only added and keep their ids |
| RelayCore.IdsNeverReused | relay/src/host-relay.ts:283-288 | a connection id names one device link over the whole life of the object, hibernations included |
| RelayCore.OneDevicePerId | relay/src/host-relay.ts:275-281 | at most one live device answers to an id, and the lookup finds it |
| RelayCore.PendingClaimHarmless | relay/src/host-relay.ts:124-210 | attaching, failing or closing a pending claim changes neither the ready host nor any device |
| RelayCore.DeviceCapExact | relay/src/host-relay.ts:292-306 | a device message is over the cap exactly when its encoded payload is |
| RelayTalk.EveryConversation | relay/src/host-relay.ts:245-427 | in every orderly run the frames about one connection are OPEN, then the device's messages in its own order, then at most one CLOSE, all on one host link; and every live device was opened on the host that is ready now |
| RelayTalk.StepThreads | relay/src/host-relay.ts:292-427 | every handler keeps that, unless its verdict orphans devices |
| RelayTalk.OrphansExactly | relay/src/host-relay.ts:172-210 | a step leaves the live devices on the ready host if and only if it is not a failing verdict on a link made the host meanwhile with devices attached |
| RelayTalk.HeldExactly | relay/src/host-relay.ts:172-427 | over a run, every state has its live devices on the ready host if and only if no verdict of the run orphans one |
| RelayTalk.OrphaningRun | relay/src/host-relay.ts:153-210 | a run of the relay, its two proofs compared with the same expected bytes, that reaches such a verdict |
| RelayTalk.LateMessageBreaks | relay/src/host-relay.ts:316-331 | a message delivered on a closed device socket would follow its CLOSE, which is why the runtime must deliver none |
| RelayFrames.EveryFrameFits | relay/src/host-relay.ts:245-427 | every frame any run sends to a host link fits the header's byte and u32, and decodes to itself on the other side |
| RelayFrames.EveryDelivery | relay/src/host-relay.ts:292-427 | over every run, what is sent on a device link is exactly the DATA payloads ready hosts addressed to its connection while it lived, in order |
| RelayFrames.StepDelivers | relay/src/host-relay.ts:400-427 | a step sends a live device what the ready host's frame addressed to its connection, and nothing else to anyone |
| RelayRates.DeviceBudget | relay/src/host-relay.ts:316-321 | over every run and for every device link, whatever interval of one window's length is chosen, at most twice the limit of its messages was passed on in it |
| RelayRates.EveryMessage | relay/src/host-relay.ts:292-331 | after every run a message on a live link is passed on, or closes the link and tells the host: too big, or more than the limit of its messages came in the window it falls in, or no host, the first that holds; such a window holds more than the limit within one window's length |
| RelayEnds.DeviceEnds | relay/src/host-relay.ts:233-427 | what one step does to a live device link whose device sends nothing: it goes with its host, it is closed with the host's code, for a message too large for it, or when its device hangs up, with what the host hears of it; else it is untouched |
| RelayEnds.Admits | relay/src/host-relay.ts:245-288 | a device is accepted exactly while a host is ready, fewer than eight live and an id is left, and gets the next id; else it is refused with the code of the reason and leaves no trace |
| RelayEnds.HostFate | relay/src/host-relay.ts:124-241 | what one step does to a host link: it wins by a matching proof; it ends, with the code, for a bad or late proof, a message too large, a deadline, the matching proof of another link, or its own close; else it is untouched |
| RelayEnds.Examined | relay/src/host-relay.ts:153-172 | a proof goes under examination exactly when it is thirty-two bytes in time on a pending link |
| RelayEnds.ClaimStarts | relay/src/host-relay.ts:124-151 | a claim is taken exactly for the id of a key, and waits ten seconds for the proof of the challenge it was sent |
| RelayEnds.AlarmIsFirst | relay/src/host-relay.ts:357-367 | after an alarm the next is for the first deadline still pending, and there is none when no link is |
| RelayEnds.EveryNotice | relay/src/host-relay.ts:433-448 | after every run a NOTIFY frame is let through exactly when its window holds no more than the limit of the frames ready hosts sent |
| RelayVerdicts.EveryPromptRun | relay/src/host-relay.ts:153-427 | when nothing but its verdict happens while a proof is under examination: every connection is one conversation on one host link, every live device was opened on the host that is ready now, and no ended link comes back |
| RelayVerdicts.PromptStep | relay/src/host-relay.ts:153-210 | such a step finds its link pending, so it orphans and revives nobody |
| RelayVerdicts.EndsExactly | relay/src/host-relay.ts:172-210 | over a run, links that have ended stay ended if and only if every matching verdict finds its link not yet ended |
| RelayVerdicts.StepEndsExactly | relay/src/host-relay.ts:172-210 | the same at each step |
| RelayVerdicts.RevivalReplaces | relay/src/host-relay.ts:179-241 | a matching verdict on an ended link makes it the host, ends the live host and closes every device |
| RelayVerdicts.RevivingRun | relay/src/host-relay.ts:153-210 | a run that reaches such a verdict with another host ready and a device attached |
| HostRelay.HostRelay.constructor | relay/src/host-relay.ts:95-109 | a new object starts in the initial state |
| HostRelay.HostRelay.Rebuild | relay/src/host-relay.ts:98-109 | eviction and the next wake take the hibernation step |
| HostRelay.HostRelay.ScheduleAuthDeadline | relay/src/host-relay.ts:474-477 | the alarm is moved earlier, never later |
| HostRelay.HostRelay.AttachHost | relay/src/host-relay.ts:124-151 | takes the model's step for a new claim, and refuses exactly ids that are no keys |
| HostRelay.HostRelay.HandleProof | relay/src/host-relay.ts:153-172 | takes the step for a proof up to its crypto call |
| HostRelay.HostRelay.ProofJudged | relay/src/host-relay.ts:172-177 | takes the step for the verdict |
| HostRelay.HostRelay.PromoteHost | relay/src/host-relay.ts:183-188 | promotes the link, evicts the previous host and closes its devices |
| HostRelay.HostRelay.RetireHost | relay/src/host-relay.ts:200-210 | ends a link, and its devices only if it was seen as ready |
| HostRelay.HostRelay.HostSocket | relay/src/host-relay.ts:213-219 | finds the ready host |
| HostRelay.HostRelay.EvictReadyHosts | relay/src/host-relay.ts:224-231 | ends every other ready link and, if there was one, all devices |
| HostRelay.HostRelay.CloseAllDevices | relay/src/host-relay.ts:233-241 | closes every live device and no other |
| HostRelay.HostRelay.AttachDevice | relay/src/host-relay.ts:245-264 | takes the step for a device, or refuses with the code of the first reason that holds |
| HostRelay.HostRelay.LiveDeviceCount | relay/src/host-relay.ts:266-273 | counts the live devices |
| HostRelay.HostRelay.DeviceSocket | relay/src/host-relay.ts:275-281 | finds the live device of an id |
| HostRelay.HostRelay.AllocateConnId | relay/src/host-relay.ts:283-288 | hands out the next id and stores the counter, or none past u32 |
| HostRelay.HostRelay.HostMessage | relay/src/host-relay.ts:292-315 | takes the step for a message on a host link, oversized ones included |
| HostRelay.HostRelay.OversizedTarget | relay/src/host-relay.ts:388-398 | finds the device an oversized DATA frame was for |
| HostRelay.HostRelay.RouteHostFrame | relay/src/host-relay.ts:400-427 | takes the step for a frame from the host |
| HostRelay.HostRelay.HandleNotify | relay/src/host-relay.ts:433-448 | takes the step for a NOTIFY and stores the window |
| HostRelay.HostRelay.DeviceMessage | relay/src/host-relay.ts:316-331 | takes the step for a device's message: forwarded, or the link closed for its size, its rate or a missing host |
| HostRelay.HostRelay.CloseDevice | relay/src/host-relay.ts:372-386 | ends a device link once and tells the host |
| HostRelay.HostRelay.DeviceClose | relay/src/host-relay.ts:334-350 | takes the step for a device that hung up |
| HostRelay.HostRelay.HostClose | relay/src/host-relay.ts:334-350 | takes the step for a host link that hung up |
| HostRelay.HostRelay.Alarm | relay/src/host-relay.ts:357-367 | takes the step for the alarm: overdue claims fail and the next deadline is set |
| Limiter.AllowRate | relay/src/host-relay.ts:485-494 | updates the window and allows up to the limit in it |
| Limiter.WindowBound | relay/src/host-relay.ts:485-494 | on a clock that never runs back no window of a run admits more than the limit, wherever it opens |
| Limiter.IntervalBound | relay/src/host-relay.ts:485-494 | any interval of one window's length admits at most twice the limit |
| Limiter.CounterCounts | relay/src/host-relay.ts:485-494 | the counter is the number of messages since its window began |
| Limiter.RefusedWhenFull | relay/src/host-relay.ts:485-494 | a message is refused only when more than the limit arrived within one window's length |
| Frames.EncodeFrame | relay/src/frames.ts:27-36 | fills the buffer with the frame's bytes |
| Frames.DecodeEncode | relay/src/frames.ts:27-46 | decoding inverts encoding exactly on types below 256 and ids below 2^32 |
| Frames.DecodeReduces | relay/src/frames.ts:27-46 | any other frame decodes to itself with type and id reduced to what the header carries |
| Frames.EncodeDecode | relay/src/frames.ts:38-46 | every byte string of five or more is the encoding of what it decodes to |
| Frames.OnTheWire | relay/src/frames.ts:27-46 | a frame is its type, its connection's octets most significant first, and its payload |
| Frames.CloseRoundTrip | relay/src/frames.ts:48-64 | a CLOSE carries its connection, the octets of its reason, and its code exactly when that is a u16 |
| Frames.CloseReasonRoundTrip | relay/src/frames.ts:48-64 | a well-formed reason survives the text encoder, the frame and the text decoder if and only if it does not begin with the mark the decoder strips |
| Utf8.SizeBounds | relay/src/host-relay.ts:513-520 | n units encode to between n and 3n octets |
| Utf8.MeasuredExact | relay/src/host-relay.ts:513-520 | the shortcut decides the cap as the encoded length would |
| Utf8.MeasuredDecides | relay/src/host-relay.ts:513-520 | against any limit from the cap up, the one family of texts it decides otherwise |
| Utf8.RoundTrip | relay/src/frames.ts:48-64 | well-formed text survives encoding and decoding |
| Utf8.EncodesUtf8 | relay/src/host-relay.ts:327-329 | whatever the text, lone surrogates included, its octets are UTF-8 as section 4 of RFC 3629 defines it |
| Base64url.ReverseTable | relay/src/auth.ts:15-21 | the lookup table holds each symbol's value and -1 elsewhere |
| Base64url.B64urlEncode | relay/src/auth.ts:27-44 | writes the text whose symbols are the bytes' groups of six bits |
| Base64url.B64urlDecode | relay/src/auth.ts:51-71 | reads exactly the canonical texts, although the 32-bit accumulator is never masked and wraps |
| Base64url.AccumulatorOctet | relay/src/auth.ts:54-66 | what the accumulator held above its low six bits never reaches an octet |
| Base64url.DecodeEncode | relay/src/auth.ts:27-71 | decoding inverts encoding on every byte string |
| Base64url.EncodeDecode | relay/src/auth.ts:46-71 | encoding inverts decoding on every accepted text |
| Base64url.OneSpelling | relay/src/auth.ts:46-50 | a byte string has exactly one accepted spelling |
| Base64url.SextetsAreBits | relay/src/auth.ts:27-44 | the symbols spell the bits of the bytes, six at a time, most significant first |
| Base64url.HostIdIsKey | relay/src/auth.ts:73-78 | a 43-character id decodes to 32 bytes or not at all, and every 32-byte key has such an id |
| ClientProofs.EveryRun | src/remote/client.ts:138-626 | every reachable client keeps the lifecycle, at most eight slots with a queue only behind eight, order of acceptance, and each request on the books exactly once |
| ClientProofs.StepLifecycle | src/remote/client.ts:239-262 | every step keeps: a held socket is the current generation's, a retry excludes a socket and a live attempt, and a client told to disconnect has nothing left |
| ClientProofs.StepBooks | src/remote/client.ts:330-370 | every step keeps the slot bound, the order and the books |
| ClientProofs.ExactlyOne | src/remote/client.ts:330-370 | an accepted request is exactly one of queued, awaiting and settled, and settled at most once |
| ClientProofs.StepSettles | src/remote/client.ts:552-569 | no step takes back a settlement |
| ClientProofs.SentBeforeQueued | src/remote/client.ts:356-370 | no request is sent while one accepted before it is queued |
| ClientProofs.AbandonedHolds | src/remote/client.ts:339-350 | a timed-out request holds its slot until its answer, a failed send or a teardown |
| ClientProofs.StaleIgnored | src/remote/client.ts:445-473 | callbacks of an older generation change nothing |
| ClientProofs.DisconnectCloses | src/remote/client.ts:257-262 | a disconnect leaves a good client that is closed |
| ClientProofs.StaysDisconnected | src/remote/client.ts:257-262 | until the next connect it stays disconnected, with no retry, socket or target, whatever fires |
| ClientProofs.FirstFrameGoesOut | src/remote/client.ts:376-425 | a fresh socket's first frame goes out at once if and only if a slot is free |
| ClientProofs.UnansweredHandshakesStarve | src/remote/client.ts:405-424 | a run of eight unanswered handshakes after which the ninth hello is queued, unsent, behind eight slots of earlier sockets |
| ClientProofs.NeverSent | src/remote/client.ts:356-370 | behind eight slots of earlier sockets a queued request is sent in no run without a send reported failed |
| ClientProofs.FailedSendFrees | src/remote/client.ts:352-370 | such a failed send lets the head of the queue out |
| ClientOutcomes.SocketLost | src/remote/client.ts:581-588 | a lost socket of a client that did not ask for it is reported, and arms a retry exactly when the close code is not fatal |
| ClientOutcomes.AttemptLost | src/remote/client.ts:376-424 | a failed dial or handshake drops its socket, is reported, and arms a retry exactly when the host key was the right one and no pairing code is held |
| ClientOutcomes.HandshakeAnswered | src/remote/client.ts:497-533 | an answered handshake connects, and starts backoff afresh after a retry; a pairing spends its code and goes on to read the workspace |
| ClientOutcomes.AttemptStarts | src/remote/client.ts:239-260 | connecting and the retry dial under a new generation; a dial that opens in time holds its socket, and pairs or greets |
| ClientOutcomes.NothingElse | src/remote/client.ts:257-263 | disconnecting drops everything but dials still out, and no other event touches the connection |
| ClientOutcomes.StepAlive | src/remote/client.ts:537-543 | a step leaves the client alive (retrying, attempting or holding a socket) if and only if it connects, or was alive and the event is no disconnect, fatal close, host key mismatch or failed pairing |
| ClientOutcomes.NeverGivesUpSilently | src/remote/client.ts:537-588 | over every run the client is alive if and only if some connect was followed by no such event |
| ClientOutcomes.CallGoesOut | src/remote/client.ts:264-361 | a call is accepted exactly while a socket is held, goes out at once while a slot is free and waits last otherwise |
| ClientOutcomes.RequestEnds | src/remote/client.ts:363-374 | an answer or a failed send frees the slot, sends the head of the queue and tells a caller still waiting |
| ClientOutcomes.EveryoneTold | src/remote/client.ts:590-608 | once an attempt is abandoned every request accepted before has been settled |
| ProtocolClient.ProtocolClient.constructor | src/remote/client.ts:138-180 | a new client is in the initial state |
| ProtocolClient.ProtocolClient.Request | src/remote/client.ts:330-359 | sends while a slot is free, queues otherwise |
| ProtocolClient.ProtocolClient.Settle | src/remote/client.ts:361-370 | frees the slot and sends the next queued request |
| ProtocolClient.ProtocolClient.RequestTimesOut | src/remote/client.ts:339-350 | tells the caller and keeps the slot |
| ProtocolClient.ProtocolClient.Call | src/remote/client.ts:264-271 | accepts exactly while a socket is held |
| ProtocolClient.ProtocolClient.SendFails | src/remote/client.ts:352-354 | a failed send settles its request |
| ProtocolClient.ProtocolClient.OnMessage | src/remote/client.ts:552-569 | takes the step for an answer |
| ProtocolClient.ProtocolClient.Finish | src/remote/client.ts:497-533 | an ended request tells its caller, and a handshake waiting on it goes on |
| ProtocolClient.ProtocolClient.Connect | src/remote/client.ts:239-245 | takes the step for connect |
| ProtocolClient.ProtocolClient.Disconnect | src/remote/client.ts:257-262 | takes the step for disconnect |
| ProtocolClient.ProtocolClient.StartAttempt | src/remote/client.ts:376-384 | opens a new generation and dials |
| ProtocolClient.ProtocolClient.RetryFires | src/remote/client.ts:614-624 | takes the step for the retry timer |
| ProtocolClient.ProtocolClient.DialOpens | src/remote/client.ts:384-404 | takes the step for an opened socket: superseded, or held and greeted |
| ProtocolClient.ProtocolClient.Continue | src/remote/client.ts:497-533 | what a handshake does with its answer |
| ProtocolClient.ProtocolClient.AttemptFails | src/remote/client.ts:405-424 | a failed attempt drops its socket and clears nothing pending |
| ProtocolClient.ProtocolClient.Fail | src/remote/client.ts:535-542 | reports, and schedules a retry when one helps |
| ProtocolClient.ProtocolClient.ScheduleRetry | src/remote/client.ts:610-625 | arms one retry at most |
| ProtocolClient.ProtocolClient.OnClose | src/remote/client.ts:581-588 | takes the step for a closed socket |
| ProtocolClient.ProtocolClient.OnSocketError | src/remote/client.ts:577-579 | takes the step for a socket error |
| ProtocolClient.ProtocolClient.Teardown | src/remote/client.ts:590-608 | rejects everyone waiting in order, once, and empties the books |
| RowSync.ReplayConverges | src/rowSync.ts:38-74 | subscribed at j, snapshot at k, observed to n: id by id the settled rows are the true rows, for every history |
| RowSync.FindFolded | src/rowSync.ts:38-43 | of the events about an id the last decides its row |
| RowSync.OverlapOrder | src/rowSync.ts:38-43 | replaying events a snapshot already holds leaves rows never deleted in place and moves revived ones behind them |
| RowSync.OrderKeptExactly | src/rowSync.ts:38-74 | subscribed at j, snapshot at k, observed to n: the settled list is in the true order if and only if, of the snapshot's rows never deleted later, those deleted in the overlap and there again are the last |
| RowSync.ReplayExact | src/rowSync.ts:38-74 | with no id revived in the overlap the settled list is the true list, order included, whatever comes later |
| RowSync.RevivedRowMoves | src/rowSync.ts:38-74 | a history of two rows on which the order changes |
| RowSync.Sync.Push | src/rowSync.ts:64-67 | buffers before the settle, applies after it |
| RowSync.Sync.Settle | src/rowSync.ts:68-72 | replays the buffer over the snapshot, or over the rows held |
| RowSync.Load | src/rowSync.ts:54-74 | a whole load through the object converges wherever the settle falls among the pushes, as a map always and as a list exactly under the condition of OrderKeptExactly |
| RowSync.LoadUnfetched | src/rowSync.ts:44-50 | a load whose fetch failed replays over the rows held, and ends right about an id if and only if an event was about it or the rows held were right about it |
| RowSync.SecondSettle | src/rowSync.ts:48-50 | settled again with another snapshot, the rows end right about an id if and only if the snapshot is no older than the events applied, or a later event is about the id, or the events it lacks left the id as it has it |
| RowSync.LoadSettledTwice | src/rowSync.ts:48-74 | a load through the object that settles twice: without a snapshot the second settle costs nothing, with one that condition decides, id by id, and when the snapshot is the newer of the two the list is in the true order under the condition of OrderKeptExactly |
| RowSync.StaleSnapshotLosesRow | src/rowSync.ts:48-50 | a history of one event whose row a second settle loses |
| RowSync.SingleSync.Push | src/rowSync.ts:101-104 | keeps the newest value, or commits it once settled |
| RowSync.SingleSync.Settle | src/rowSync.ts:105-109 | what arrived live wins over what was fetched, a release included |
| RowSync.LoadSingle | src/rowSync.ts:85-111 | a one-row load converges on every run of writes |
| RowSync.LoadSingleTwice | src/rowSync.ts:97-111 | settled a second time, a one-row load ends at the newest value if and only if a write follows, or the last buffered value is the newest, or nothing was buffered and the second fetch brought none or the newest |
| RowSync.SecondSettleBringsBack | src/rowSync.ts:97-111 | a run on which the second settle puts back an older value over a newer one |
| ChatLog.MirrorOnce | src/helpers/mirrorTurn.ts:52-58 | a mirrored turn is drawn once however often its event arrives, and nothing else moves |
| ChatLog.ReplaceTurnBubble | src/helpers/mirrorTurn.ts:25-38 | the first bubble of the turn is replaced in place, taken out, or the next one appended; no turn gains a second bubble |
| MergeTurns.OverlayTurn | src/helpers/mergeTurns.ts:26-41 | an overlay keeps the stamp, names the turn, and only ever shortens the text, and only for a turn with attachments |
| MergeTurns.UnplacedBubble | src/helpers/mergeTurns.ts:53-64 | a turn with no position gets a bubble exactly while it has not ended and the log does not draw it, a waiting one exactly when it has no start or outcome |
| MergeTurns.Index | src/helpers/mergeTurns.ts:86-98 | the three tables hold each record's first prompt, the noticed records, and each session's items |
| MergeTurns.FindSlot | src/helpers/mergeTurns.ts:107-112 | finds the session's first item at or past the position, or the place after its last, or the end |
| MergeTurns.MergeUserTurns | src/helpers/mergeTurns.ts:83-147 | the loops and buckets build the one sorted listing of kept items, inserted bubbles and tail bubbles |
| MergeTurns.LayoutSorted | src/helpers/mergeTurns.ts:138-146 | that listing holds every item and every placed turn once, by slot, then bubbles in turn order ahead of the item, the tail last |
| MergeTurns.NothingToMerge | src/helpers/mergeTurns.ts:84 | no turns, no change |
| MergeLaws.Conserved | src/helpers/mergeTurns.ts:83-147 | taking out what was put in gives the items back in order, and the length grew by exactly the inserted and tail bubbles |
| MergeLaws.OneClaimEach | src/helpers/mergeTurns.ts:114-127 | a prompt is claimed by the first turn paired with it and by no other |
| MergeLaws.AmongItsSession | src/helpers/mergeTurns.ts:73-76 | with a session's records ascending a bubble stands after exactly its records below the position |
| MergeLaws.TightlyPlaced | src/helpers/mergeTurns.ts:73-76 | right before the first record at or past the position, or right after the session's last |
| MergeLaws.BubblesInOrder | src/helpers/mergeTurns.ts:81-82 | bubbles of a session follow their positions, and turn order where positions tie |
| MergeShows.PlacedWhen | src/helpers/mergeTurns.ts:56-136 | from the turn's own fields: it is laid over its prompt's bubble when it is the first with that prompt, drawn at its position unless the prompt's record is drawn as a notice, and without a position at the end exactly while it has not ended and no item draws it |
| MergeShows.ShownExactly | src/helpers/mergeTurns.ts:82-146 | the merged log shows a turn if and only if it has such a place, or an item draws it that no other turn's row is laid over |
| MergeShows.BubbleSays | src/helpers/mergeTurns.ts:28-64 | a bubble drawn from a row carries the turn's text, attachments and times, waits exactly when the turn has no position, start or outcome, and says undelivered exactly when it was never echoed and was interrupted or failed |
| MergeShows.OverlaySays | src/helpers/mergeTurns.ts:28-38 | a row laid over its prompt's bubble: the turn's times and attachments where it has them, the typed text under attachments, the rest as it was |
| MergeShows.UntouchedStands | src/helpers/mergeTurns.ts:82-146 | an item no row is laid over stands as it was |
| PageTurns.TurnsOnPage | src/helpers/mergeTurns.ts:149-165 | keeps, in order, the turns the page can place |
| PageTurns.KeepsThePlaced | src/helpers/mergeTurns.ts:149-165 | the turns kept are exactly those the page can place, each once and in order |
| PageTurns.PlacedExactly | src/helpers/mergeTurns.ts:149-165 | a turn is placed if and only if it has no position, or the page holds a record of its session at or before it, or, the page holding none, the turn is the agent's own |
| PageTurns.OlderPagesOnlyAdd | src/helpers/mergeTurns.ts:149-165 | reading an older page in front loses no turn of a session shown |
| Carry.LocateAnchor | src/helpers/transcript.ts:47-79 | finds the first match from a place on, among the kinds that can anchor |
| Carry.CarryForwardStoreOnly | src/helpers/transcript.ts:100-145 | the walk and its buckets build the one sorted listing of rebuilt and carried items |
| Carry.LayoutSorted | src/helpers/transcript.ts:134-145 | that listing holds every rebuilt item and every carried one once, each carried one with its anchor |
| CarryLaws.AnchorsAdvance | src/helpers/transcript.ts:104-110 | later items are located strictly later, inside the log, at their first match past the anchor |
| CarryLaws.AnchorIsNearest | src/helpers/transcript.ts:104-133 | the anchor is where the nearest located predecessor is |
| CarryLaws.AnchorRepeats | src/helpers/transcript.ts:55-145 | the anchor says again what an earlier item said, a tool call of the same id or the same words, and nothing said in between is said again further down |
| CarryLaws.WhatIsCarried | src/helpers/transcript.ts:55-145 | carried over are every command output, every follow-up whose turn the rebuilt log does not draw, every thought not thought again past its place, and nothing else |
| CarryLaws.Conserved | src/helpers/transcript.ts:100-145 | taking out what was carried gives the rebuilt log back; each carried item stands once |
| CarryLaws.AfterItsAnchor | src/helpers/transcript.ts:95-99 | a carried item stands after exactly the rebuilt items up to its anchor, or after all of them |
| CarryLaws.CarriedOrder | src/helpers/transcript.ts:95-99 | two carried items keep their order unless only the later has an anchor |
| CarryLaws.RebuildTwice | src/helpers/transcript.ts:100-145 | rebuilding again from the same records changes nothing if and only if every carried item has an anchor, or no rebuilt item can be one, or the last one can |
| CarryLaws.FollowUpMovesUp | src/helpers/transcript.ts:95-99 | a log on which a second rebuild moves a follow-up of any turn |
| RebuildLaws.RebuildLog | src/store/eventListeners.ts:382-387 | the two stages one after the other |
| RebuildLaws.MergedOnce | src/helpers/mergeTurns.ts:83-147 | the merged log shows no turn twice, and shows a turn exactly when it has a place, told from the turn's own fields |
| RebuildLaws.ShownOnce | src/helpers/transcript.ts:85-99 | carrying over shows no turn twice |
| RebuildLaws.RebuildKeeps | src/store/eventListeners.ts:382-387 | a rebuild shows no turn twice, loses no merged item, carries every command output once, no part standing twice, drops a follow-up exactly when the merged log draws its turn, and is settled exactly when steady |
| Jsonc.JsoncToJson | src-tauri/src/editors.rs:353-412 | the scanner with its remembered comma gives the kept tokens' text; the remembered index always points at a comma |
| Jsonc.Step | src-tauri/src/editors.rs:361-410 | taking in one token leaves the final outcome as it was |
| JsoncLaws.LexLosesNothing | src-tauri/src/editors.rs:353-412 | the tokens of a text are the text |
| JsoncLaws.FirstToken | src-tauri/src/editors.rs:353-412 | a string runs to its first quote that is not escaped, a line comment to the newline, a block comment to the first star and slash past its opening |
| JsoncLaws.EachToken | src-tauri/src/editors.rs:353-412 | token by token: a comment goes, a line comment's newline stays, a comma goes when only white space and comments stand between it and a closing bracket, all else stays |
| JsoncLaws.ReducedTokens | src-tauri/src/editors.rs:350-353 | the result, read as tokens, is the original without comments and trailing commas, and no deletion makes a new comment |
| JsoncLaws.StringsSurvive | src-tauri/src/editors.rs:350-353 | strings come through verbatim |
| JsoncLaws.UnchangedIffClean | src-tauri/src/editors.rs:350-353 | a text is unchanged if and only if it has no comment and no trailing comma |
| JsoncLaws.SettledIffSingle | src-tauri/src/editors.rs:392-401 | reducing again changes nothing if and only if no comma stands right before a trailing one |
| JsoncLaws.TwoCommas | src-tauri/src/editors.rs:392-401 | a text on which it does |
| Handoff.KeepRecent | src/adapters/handoff.ts:145-160 | the loop keeps the longest run of last lines that fits |
| Handoff.RenderBefore | src/adapters/handoff.ts:126-139 | renders from the last compaction before the cut |
| Handoff.KeptFits | src/adapters/handoff.ts:145-156 | the kept lines fit and one more would not |
| Handoff.TailOf | src/adapters/handoff.ts:162-167 | a suffix of the asked length or one unit less, whole when the text is |
| Handoff.CapTells | src/adapters/handoff.ts:28-36 | a capped text keeps a prefix that splits no pair, and its note spells how much was dropped |
| HandoffLaws.Bounded | src/adapters/handoff.ts:145-160 | a transcript never exceeds its budget |
| HandoffLaws.Shape | src/adapters/handoff.ts:145-160 | it is the whole, or the note and a maximal run of last lines, or the note and the end of the last line |
| HandoffLaws.SerializeWhole | src/adapters/handoff.ts:55-95 | one item's paragraph, nested calls included, splits no surrogate pair |
| HandoffLaws.TranscriptWhole | src/adapters/handoff.ts:126-167 | neither does the whole transcript, which stays in its budget |
| HandoffLaws.CompactionStands | src/adapters/handoff.ts:104-139 | what comes before a compaction does not matter |
| HandoffLaws.ThroughIsBeforeNext | src/adapters/handoff.ts:106-124 | with distinct turn ids, through a turn is before the next one, or the whole log |
| HandoffLines.LineBegins | src/adapters/handoff.ts:56-96 | which items have a line; the line begins with the item's voice and its words, and is nothing more but for what a tool call's own items say |
| HandoffLines.TranscriptSays | src/adapters/handoff.ts:129-160 | a transcript within its budget holds in the log's order the voice and words of every item that speaks since the last compaction, nested ones in their place, set apart by line breaks only |
| HandoffLines.TranscriptTail | src/adapters/handoff.ts:148-160 | past its budget it is the note and all that the items from some place on say, or the end of the last line |
| Handoff.Trim | src/adapters/handoff.ts:70-83 | what is left when nothing but white space is taken off the two ends |
| Environments.StepMeans | src/store/environmentSwitch.ts:298-323 | every action means what it should on a map from environment to view; switching changes no view |
| Environments.EveryRun | src/store/environmentSwitch.ts:10-32 | over every run the store and its stashes stand for that map |
| Environments.Restored | src/store/environmentSwitch.ts:138-207 | a switch shows the parked view over the blank one and parks what was shown; keys outside the list stay |
| Environments.AwayUntouched | src/store/environments.ts:190-212 | nothing reaches the view of an environment that is away, answers to reads included |
| Environments.SwitchBackRestores | src/store/environmentSwitch.ts:14-16 | switching back shows exactly what was left there |
| Environments.FirstVisitIsBlank | src/store/environmentSwitch.ts:138-144 | an environment entered for the first time shows the blank view |
| Environments.RemoveMeans | src/store/environments.ts:147-160 | forgetting an environment drops its view only, if and only if it is not the remote one on screen or This Mac's view equals what is shown |
| Descriptors.EveryField | src/store/environments.ts:119-161 | over every run each field the switcher shows of a known environment is the last word said about it; a field left out of an upsert keeps, one given as undefined clears |
| Environments.ForgottenViewStays | src/store/environments.ts:147-160 | a run from the initial store after which forgetting the environment on screen leaves its edited value on This Mac's |
| EnvironmentStore.EnvironmentStore.constructor | src/store/environments.ts:106-117 | the store starts with This Mac alone |
| EnvironmentStore.EnvironmentStore.StashValues | src/store/environmentSwitch.ts:203-207 | the loop collects exactly the listed keys |
| EnvironmentStore.EnvironmentStore.SwitchEnvironment | src/store/environmentSwitch.ts:298-332 | takes the switch step |
| EnvironmentStore.EnvironmentStore.UpsertEnvironment | src/store/environments.ts:122-125 | spreads the entry over the known one, a field given as undefined included, and keeps the parked view |
| EnvironmentStore.EnvironmentStore.SetEnvironmentConnection | src/store/environments.ts:127-136 | writes the connection of a known environment |
| EnvironmentStore.EnvironmentStore.SetEnvironmentProviders | src/store/environments.ts:138-145 | writes the providers of a known environment |
| EnvironmentStore.EnvironmentStore.RemoveEnvironment | src/store/environments.ts:147-160 | takes the removal step |
| EnvironmentStore.EnvironmentStore.LandRead | src/store/environments.ts:190-212 | writes an answer only where it was asked |
| Readiness.DescribeGate | src/mergeGate.ts:91-172 | when the gate allows a merge, counts failing checks, asks for an update, is still computing, or knows only that there are no conflicts |
| Readiness.DetectBlockers | src/readiness.ts:112-185 | builds the list of blockers |
| Readiness.DetectsExactly | src/readiness.ts:112-185 | a blocker is listed if and only if it stands in the way |
| Readiness.NamesTheMostBlocking | src/readiness.ts:219-350 | with blockers the ladder names one at least as blocking as every other and escalates exactly the human-owned ones; without, it names none |
| Readiness.DelegatesTheRemedy | src/readiness.ts:237-330 | work handed to an agent is the remedy for the blocker it names, kind by kind with its parameters, and that blocker stands |
| Readiness.RestsExactly | src/readiness.ts:219-349 | unread exactly without a read of the working copy, landed exactly when merged with no work since, and without an open proposal the decision is left exactly when nothing is in the way |
| Readiness.OursCounts | src/readiness.ts:176-183 | the disputed count is the number of threads where the last word is ours |
| Readiness.ConflictsInOrder | src/readiness.ts:116-117 | the conflicted paths are those of the conflicted files, in order |
| Readiness.MergesOnlyWhenClear | src/readiness.ts:332-349 | on an open proposal: merge, gate-wait and ready each exactly when nothing blocks and the gate says so |
| Readiness.NoGateWithoutProposal | src/readiness.ts:332-335 | without an open proposal it never merges and never waits on a gate |

## Left out

- Cryptography: key pairs, X25519 and SHA-256; the expected proof is an arbitrary value fixed for each host link when it attaches, or none when the library rejects the key. JSON parsing of the proof message is a given optional field.
- The relay's APNs sending and its `apns` client: a NOTIFY is modelled up to the decision to send.
- Routing in the Worker, and reaping of sockets that ended: an ended socket keeps its number, marked as such.
- Which close codes the runtime itself accepts: a farewell is recorded as the relay chose it.
- What the runtime is assumed to do: it delivers no message on a device socket after its close, fires no alarm early, evicts the object only while no handler waits, and its clock does not run back.
- What the client's transport is assumed to do: request ids are fresh, an answer on the books comes on the socket its request went out on, and nothing is delivered after the client closed a socket.
- The client's pairing by confirmation, its listeners, error wording, dial order within an attempt, and backoff delays.
- Octets that are no UTF-8, which the text decoder replaces: reading a CLOSE reason is modelled on what the text encoder writes.
- Texts between 4 MiB and 4 MiB + 5 units on a host link: `Utf8.MeasuredDecides` names the family the shortcut may decide otherwise; the relay's host cap is modelled as the code computes it.
- An item's content beyond what the merge and the carry-over read, such as tool inputs or a queued message's badge.
- Adapters that reduce records to items: their output is an arbitrary list, of which the combined theorem asks that it names no turn and holds no store-only kind.
- Byte indices in `jsonc_to_json`: the model counts characters, and a comma is one byte.
- The texts of tool inputs and results before capping, and of messages before injected instructions are stripped: given as rendered.
- The list of keys an environment owns and their blank values: any list, with the blank view carrying exactly those keys as its type demands.
- Reads that follow a switch are modelled one by one; the re-attaching of event listeners and the refresh generation of the workspace are not part of this model.
- An upsert that itself brings a parked view: only the switch writes one.
- Display wording of gates (`mergeGateLabel`) and of trigger parameters.
