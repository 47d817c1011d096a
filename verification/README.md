# Relaycast, verified models

Dafny models of the parts of Relaycast whose correctness depends on every interleaving or on
every input, with proofs of what those parts promise.  Operations that the system performs by
updating variables are classes or methods with loops, each proved to do what a function on values
says; the promises are lemmas about those functions, quantified over every run or every input.
`dafny verify dfyconfig.toml` checks the whole project.

| module | system part |
|---|---|
| `Telemetry`, `TelemetryEffects` | consent, identity and revocation in the MCP server's telemetry |
| `SocketBridge`, `BridgeProgress`, `Gateway` | WebSocket upgrades of the actor gateway, and its shutdown |
| `FramePipe`, `CloseReason` | what a bridged pair of sockets forwards, and how it relays a close |
| `SqlScript`, `ScriptEnds` | splitting and running SQL scripts |
| `Events`, `EventMeaning` | normalizing inbound events |
| `Casing`, `CanonicalJson` | key casing, and the canonical form behind the contract hash |
| `DmCache` | the cache of direct-message participants |
| `RetryLayers`, `RegistrationRules` | the two stacked retry loops around agent registration |
| `ReactStore`, `StoreContents` | the store that folds server events for React |
| `Calendar` | the timestamp without a date library |
| `KeyedWorkspace` | ids of keyed workspace creates, and the route that relies on them |
| `Wrappers`, `Strings`, `Digits`, `Json` | shared values and text facts |

Files, clocks, random ids, hashes, SQLite, the network and the answers of servers and actors are
inputs: arbitrary values or functions, constrained only where a member says so.

Where the code does less than its comments or its purpose suggest, the model follows the code and
states exactly when the promise holds:

- Telemetry: an opt-out that is read while the revocation journal cannot be read is forgotten
  (`OptOutIsRecordedIff`, `ForgottenOptOut`).
- Frame pipe: after a frame was dropped for a slow actor, later frames of the closing client are
  still forwarded, so the actor's stream can have a gap (`ActorStreamIsGaplessIff`,
  `ActorStreamCanHaveAGap`); and a binary frame can outgrow the frame limit when it is sent on as
  text (`PipePromises`, `FrameLimitBoundsQueueIff`).
- Close reasons: a text whose 123rd byte ends a replacement character of its own loses it
  (`ReasonIsLongestFittingPrefix`, `OwnReplacementIsLost`).
- SQL: `prepare` leaves compiled statements open when a later one fails to compile (`Prepare`,
  `FailingPrepareLeaks`).
- Events: a reaction that names a channel loses its meaning when its fields are wrapped
  (`WrappingPreservesMeaning`, `WrappedReactionSaysNothing`).
- Canonical JSON: the keys of an object come out in sorted order exactly when its array indices
  compare as texts as they do as numbers and precede all other keys (`SortedByTextIff`,
  `IndexNamesEscapeSorting`).
- Participants cache: a workspace id that continues another at a colon shares its keys
  (`AlwaysRemembersIff`, `ColonConfusesConversations`).
- Keyed ids: the hashed text is ambiguous exactly when owner ids run into keys at a colon
  (`TextsCollideIff`, `ColonConfusesOwners`); the router itself only ever uses numerals
  (`OtherKeysHashOtherTexts`).
- Registration: a server error whose body breaks off is retried as a failed exchange
  (`FirstAnswerIsFinalIff`, `BrokenServerErrorIsResent`).
- React store: removing a reaction of somebody who did not react corrupts the group
  (`RemoveMeansIff`, `RemoveUnlisted`); replies to an id shown in several channels are counted only
  by the first (`ReplyCountIsRepliesSinceAddedIff`, `SharedIdIsCountedOnce`).
- Timestamps: their text order ends with the year 9999 (`TextOrderHoldsIff`).

## Model

| member | source | states |
|---|---|---|
| `Telemetry.CaptureHolds` | packages/mcp/src/telemetry.ts:265-337 | one capture, whatever the files answer, keeps the invariant: a pending rotation holds a local generation, every opted-out identity is journaled or still pending, sessions belong to one identity |
| `Telemetry.RunHolds` | packages/mcp/src/telemetry.ts:251-337 | the invariant holds after any number of captures |
| `Telemetry.OptOutIsFinal` | packages/mcp/src/telemetry.ts:265-337 | in every run, an event after an opt-out observed under X has another identity and a session not sent before it, and in between the journal took X and the identity file was replaced or seen unrevoked |
| `Telemetry.RevokedIsNeverSent` | packages/mcp/src/telemetry.ts:280-284 | identities this process journaled never appear in a later event |
| `Telemetry.JournalIsHonoured` | packages/mcp/src/telemetry.ts:335-337 | identities that any process journaled, once read, never appear in a later event |
| `Telemetry.SessionHasOneIdentity` | packages/mcp/src/telemetry.ts:301-301 | no session id is sent with two identities |
| `Telemetry.OptOutIsRecordedIff` | packages/mcp/src/telemetry.ts:266-279 | an opt-out that is read is recorded exactly when the journal is readable in the same call |
| `Telemetry.ForgottenOptOut` | packages/mcp/src/telemetry.ts:271-273 | a run in which an opt-out is forgotten and the old identity and session are used again |
| `Telemetry.SettledCaptureSends` | packages/mcp/src/telemetry.ts:285-337 | with consent, a readable unrevoked shared identity and a key, exactly one event is sent, under that identity, keeping the session iff the identity stayed |
| `TelemetryEffects.NoticesIff` | packages/mcp/src/telemetry.ts:265-333 | a call records an opt-out exactly when a readable consent withdraws it: on the first read if it was not known, on the second if the first still gave it; a missing file never does |
| `TelemetryEffects.FirstOptOut` | packages/mcp/src/telemetry.ts:273-284 | on the first read: exactly the identity in use, the one consent names and the one in the identity file are revoked, nothing is sent, and an append that fails stays pending |
| `TelemetryEffects.SecondOptOut` | packages/mcp/src/telemetry.ts:310-333 | on the second read: also the identity just settled on and the one in the file by now; the identity is replaced only after the journal took that |
| `TelemetryEffects.SendsIff` | packages/mcp/src/telemetry.ts:265-337 | exactly when a call sends: consent on both reads, both journal reads, nothing left to append or replace, a key, an unrevoked identity; and then once, at the end |
| `TelemetryEffects.PendingHoldsBack` | packages/mcp/src/telemetry.ts:280-284 | until pending revocations are appended nothing others can see happens |
| `TelemetryEffects.SettlesOn` | packages/mcp/src/telemetry.ts:285-308 | which identity and session a call settles on, what it writes, and when the rotation is over, from what the files hold |
| `TelemetryEffects.MissingFilesAreNoOptOut` | packages/mcp/src/telemetry.ts:87-105 | with consent missing no opt-out is recorded, and with the identity file missing too the identity in use is written and sent |
| `TelemetryEffects.UnreadableIdentityIsStable` | packages/mcp/src/telemetry.ts:291-301 | while the identity file is unreadable one identity and session last |
| `TelemetryEffects.UnreadableDoesNothing` | packages/mcp/src/telemetry.ts:266-272 | with consent or journal unreadable nothing happens |
| `Telemetry.McpTelemetry.constructor` | packages/mcp/src/telemetry.ts:251-258 | a fresh instance is in the start state and satisfies the invariant |
| `Telemetry.McpTelemetry.PersistRevokedIdentities` | packages/mcp/src/telemetry.ts:140-149 | the journal grows by exactly the ids, or nothing changes |
| `Telemetry.McpTelemetry.PersistAnonymousId` | packages/mcp/src/telemetry.ts:107-119 | the identity file takes the id, or nothing happens |
| `Telemetry.McpTelemetry.ObserveOptOut` | packages/mcp/src/telemetry.ts:273-279 | an opt-out makes the revocations pending, draws a generation and a session, and changes nothing else |
| `Telemetry.McpTelemetry.RevokeOptedOut` | packages/mcp/src/telemetry.ts:273-284 | an unpersisted revocation list stays pending and is tried again |
| `Telemetry.McpTelemetry.RotateIdentity` | packages/mcp/src/telemetry.ts:285-308 | adopting, recovering, replacing and writing the identity |
| `Telemetry.McpTelemetry.AdoptOrRecover` | packages/mcp/src/telemetry.ts:285-294 | an unrevoked shared identity ends every local rotation; with none readable the recovery generation is held |
| `Telemetry.McpTelemetry.ChooseIdentity` | packages/mcp/src/telemetry.ts:295-307 | a revoked candidate is replaced and marks a rotation, and a changed identity draws a session |
| `Telemetry.McpTelemetry.RewriteIdentity` | packages/mcp/src/telemetry.ts:303-306 | a held generation is released exactly when the identity file took it |
| `Telemetry.McpTelemetry.RevokeLate` | packages/mcp/src/telemetry.ts:313-330 | an opt-out found on the second read is journaled before the identity is replaced |
| `Telemetry.McpTelemetry.FinishCapture` | packages/mcp/src/telemetry.ts:309-337 | the second consent and journal checks and the send |
| `Telemetry.McpTelemetry.CaptureEvent` | packages/mcp/src/telemetry.ts:265-337 | the updates of one capture are those of the model and keep the invariant |
| `SocketBridge.StepKeeps` | packages/actors-gateway/src/ws.ts:217-360 | every callback keeps the bridge invariant |
| `SocketBridge.NoOrphanedUpstream` | packages/actors-gateway/src/ws.ts:227-275 | after any interleaving each upstream socket is gone, told to close, owned by an unanswered upgrade or piped to a client that has not closed |
| `SocketBridge.AnsweredAtMostOnce` | packages/actors-gateway/src/ws.ts:196-225 | an upgrade has at most one answer and is pending exactly while it has none |
| `SocketBridge.AnswerIsFinal` | packages/actors-gateway/src/ws.ts:217-225 | an answer is never followed by another or taken back |
| `SocketBridge.EarlyIsWhatWasSent` | packages/actors-gateway/src/ws.ts:306-323 | the early buffer of an unanswered upgrade is exactly what its client sent |
| `SocketBridge.HandshakeIsFedInOrder` | packages/actors-gateway/src/ws.ts:249-259 | a bridged handshake is fed the head followed by all early chunks in order, at most 16 KiB |
| `SocketBridge.NothingIsBridgedAfterCloseAll` | packages/actors-gateway/src/ws.ts:344-355 | from closeAll on nothing is pending, nothing becomes a client, and the clients only diminish |
| `SocketBridge.NoClientsAfterTerminateAll` | packages/actors-gateway/src/ws.ts:356-363 | after closeAll and a later terminateAll the client count is zero forever |
| `BridgeProgress.StepAnswers` | packages/actors-gateway/src/ws.ts:227-355 | exactly which event answers an upgrade and with which answer |
| `BridgeProgress.ArrivalIsAnswered` | packages/actors-gateway/src/ws.ts:280-320 | a new upgrade is refused while closing, as unacceptable, or for more than 16 KiB, and otherwise waits |
| `BridgeProgress.NeverLeftBehind` | packages/actors-gateway/src/ws.ts:227-275 | in every run an unanswered upgrade waits for its check, probe or grant, or for an upstream on its way |
| `BridgeProgress.UpgradeIsBridged` | packages/actors-gateway/src/ws.ts:227-262 | from every reachable state: verified, granted, given a socket and opened usably, with anything between that leaves it unanswered, an upgrade is bridged and its client listed and piped |
| `BridgeProgress.OpeningBridges` | packages/actors-gateway/src/ws.ts:249-262 | the client is fed what it sent, and neither side is told to close |
| `BridgeProgress.NoneIsToldInVain` | packages/actors-gateway/src/ws.ts:227-275 | in every run an upstream told to close has no open client |
| `BridgeProgress.ClientIsToldOnlyIf` | packages/actors-gateway/src/ws.ts:167-171 | a client is told to close only by a shutdown or when its upstream closed |
| `BridgeProgress.ClientStep` | packages/actors-gateway/src/ws.ts:123-176 | what each event does to a bridged client and its upstream: listed, told, gone |
| `BridgeProgress.ListedIffOpen` | packages/actors-gateway/src/ws.ts:123-176 | in every run without terminateAll a client is listed exactly while both its sides are open, and told to close once its upstream closed |
| `Gateway.Bridge.SettleEntry` | packages/actors-gateway/src/ws.ts:217-225 | the first caller wins, removes the entry from pending and answers; later callers change nothing |
| `Gateway.Bridge.HandleUpgrade` | packages/actors-gateway/src/ws.ts:280-323 | an arriving upgrade is refused while closing, or with an oversized head, else pending |
| `Gateway.Bridge.constructor` | packages/actors-gateway/src/ws.ts:212-214 | a new bridge is empty, open and satisfies the invariant |
| `Gateway.Bridge.RefuseEntry` | packages/actors-gateway/src/ws.ts:235-240 | an unanswered upgrade is refused and its asynchronous part ends |
| `Gateway.Bridge.Proceed` | packages/actors-gateway/src/ws.ts:227-248 | after a credential check, a probe or a grant the upgrade goes on only if unanswered and not refused; only then is an upstream opened, and a 200 that is no grant is refused with 502 |
| `Gateway.Bridge.Gone` | packages/actors-gateway/src/ws.ts:300-305 | a departing client drops its upgrade and its upstream |
| `Gateway.Bridge.Data` | packages/actors-gateway/src/ws.ts:306-316 | early bytes are kept up to the limit, past it the upgrade is dropped |
| `Gateway.Bridge.UpstreamOpen` | packages/actors-gateway/src/ws.ts:249-266 | the opened upstream is bridged, or told to close when the upgrade was answered or unusable |
| `Gateway.Bridge.SocketEnded` | packages/actors-gateway/src/ws.ts:167-176 | a closed side unlists the client and tells the other side; an upstream that fails before opening answers an unanswered upgrade with 1011 |
| `Gateway.Bridge.TellClients` | packages/actors-gateway/src/ws.ts:353-357 | exactly the listed clients are told to close |
| `Gateway.Bridge.CloseEverything` | packages/actors-gateway/src/ws.ts:344-355 | every pending upgrade is refused with 503, its upstream dropped, every client told to close |
| `Gateway.Bridge.TerminateEverything` | packages/actors-gateway/src/ws.ts:356-360 | every client is dropped and the count is zero at once |
| `Gateway.Bridge.Handle` | packages/actors-gateway/src/ws.ts:217-360 | every callback performs its event and keeps the invariant |
| `Gateway.Server.Drain` | packages/actors-gateway/src/server.ts:125-128 | the drain ends, its last sleep began before the deadline, and it ends early only with nothing left |
| `Gateway.Server.Callbacks` | packages/actors-gateway/src/server.ts:126-128 | callbacks that arrive during a sleep are performed in order and keep the invariant |
| `Gateway.Server.Close` | packages/actors-gateway/src/server.ts:120-136 | close runs closeAll, the callbacks of the drain and terminateAll; nothing is pending and no client is left; a second close does nothing |
| `FramePipe.StepKeeps` | packages/actors-gateway/src/ws.ts:142-192 | every callback of a piped pair keeps its invariant |
| `FramePipe.PipePromises` | packages/actors-gateway/src/ws.ts:142-176 | the client gets a gapless prefix of the actor's frames, the actor gets client frames in order, queues stay within the limit plus one frame as sent on (a binary frame up to three times its size, a text frame its own), relayed closes are sendable, and when one side closed the other was told |
| `FramePipe.BinaryFrameOutgrowsItsLimit` | packages/actors-gateway/src/ws.ts:156-165 | for all limits, a run that fills the client's queue to the limit plus three times the frame limit |
| `FramePipe.FrameLimitBoundsQueueIff` | packages/actors-gateway/src/ws.ts:156-165 | the limit plus the frame limit bounds the queue in all runs exactly when the frame limit is zero |
| `FramePipe.ClientTextGoes` | packages/actors-gateway/src/ws.ts:142-155 | a client's text frame is forwarded, or has the client closed 1013 "slow upstream", or is dropped, each exactly when |
| `FramePipe.ActorFrameGoes` | packages/actors-gateway/src/ws.ts:156-165 | an actor's frame is forwarded as text, or has the client closed 1013 "slow consumer", or is dropped, each exactly when |
| `FramePipe.CloseIsRelayed` | packages/actors-gateway/src/ws.ts:167-176 | a close of either side unlists the pair and is relayed to an open other side |
| `FramePipe.OthersGo` | packages/actors-gateway/src/ws.ts:143-146 | the closes for binary frames and restarts, and what draining and pongs do |
| `FramePipe.NothingElseGoes` | packages/actors-gateway/src/ws.ts:123-194 | closed sockets, oversized frames and unlisted clients change nothing |
| `FramePipe.ActorStreamIsGaplessIff` | packages/actors-gateway/src/ws.ts:142-155 | the actor's stream has no gap exactly when nothing was forwarded after a frame dropped for a slow actor |
| `FramePipe.NoGapWhileRead` | packages/actors-gateway/src/ws.ts:142-155 | while what the client sent and the actor did not read stays within the buffer limit, the actor's stream has no gap |
| `FramePipe.AliveIff` | packages/actors-gateway/src/ws.ts:184-193 | the client counts as alive exactly when every ping so far was answered |
| `FramePipe.PingDropsIff` | packages/actors-gateway/src/ws.ts:186-193 | the ping interval drops a client exactly when it left a ping unanswered |
| `FramePipe.ActorStreamCanHaveAGap` | packages/actors-gateway/src/ws.ts:147-155 | a run with such a gap |
| `FramePipe.PipedPair.constructor` | packages/actors-gateway/src/ws.ts:123-126 | a new pair is open on both sides and satisfies the invariant |
| `FramePipe.PipedPair.CloseClient` | packages/actors-gateway/src/ws.ts:142-171 | only an open client is sent a close |
| `FramePipe.PipedPair.CloseUpstream` | packages/actors-gateway/src/ws.ts:172-176 | only an open upstream is sent a close |
| `FramePipe.PipedPair.TerminateClient` | packages/actors-gateway/src/ws.ts:186-190 | a client is dropped without a close frame |
| `FramePipe.PipedPair.ClientMessage` | packages/actors-gateway/src/ws.ts:142-155 | a client frame is forwarded, dropped, or has the client closed 1013 |
| `FramePipe.PipedPair.ActorMessage` | packages/actors-gateway/src/ws.ts:156-165 | an actor frame, with its size once decoded to text, is forwarded, dropped, or has the client closed 1013 |
| `FramePipe.PipedPair.UpstreamClosed` | packages/actors-gateway/src/ws.ts:167-171 | a closed upstream unlists the client and relays the close to it |
| `FramePipe.PipedPair.ClientHasClosed` | packages/actors-gateway/src/ws.ts:172-176 | a closed client is unlisted and its close relayed |
| `FramePipe.PipedPair.PingInterval` | packages/actors-gateway/src/ws.ts:184-193 | a client that did not answer the last ping is terminated |
| `FramePipe.PipedPair.Handle` | packages/actors-gateway/src/ws.ts:123-194 | every callback performs its event and keeps the invariant |
| `CloseReason.SendableCloseCodeIsSendable` | packages/actors-gateway/src/ws.ts:67-72 | the relayed code may be sent (section 7.4.1 of RFC 6455), and a sendable code is relayed unchanged |
| `CloseReason.DecodeOfPrefix` | packages/actors-gateway/src/ws.ts:74-77 | decoding a cut UTF-8 encoding yields the whole characters that fit, then one replacement character iff a character was cut |
| `CloseReason.DecodedIsAtMostTriple` | packages/actors-gateway/src/ws.ts:164-164 | arbitrary bytes decoded and encoded again take at most three times their room |
| `CloseReason.DecodeUndoesEncode` | packages/actors-gateway/src/ws.ts:154-164 | well-formed text comes through decoding unchanged, so text frames keep their size |
| `CloseReason.ReasonIsLongestFittingPrefix` | packages/actors-gateway/src/ws.ts:74-77 | the relayed reason is the longest whole-character prefix of at most 123 bytes, with the one exception stated |
| `CloseReason.ReasonFits` | packages/actors-gateway/src/ws.ts:74-77 | it is a prefix and fits a control frame (section 5.5 of RFC 6455) |
| `CloseReason.RelayedReasonFits` | packages/actors-gateway/src/ws.ts:74-77 | so does the reason relayed for any bytes of a close frame |
| `CloseReason.OwnReplacementIsLost` | packages/actors-gateway/src/ws.ts:76-76 | 41 replacement characters and a letter: only 40 are relayed although 41 fit |
| `SqlScript.SplitSqlChunks` | packages/engine/standalone/sqlite-driver.ts:47-79 | the jumping scanner yields exactly the split of a character-level lexer that knows doubled quotes |
| `SqlScript.SkipQuoted` | packages/engine/standalone/sqlite-driver.ts:61-66 | jumping to the next quote and rescanning agrees with reading doubled quotes as escapes |
| `SqlScript.ChunksJoinToScript` | packages/engine/standalone/sqlite-driver.ts:47-79 | chunk texts concatenate back to the script |
| `SqlScript.CutsAreTheTerminators` | packages/engine/standalone/sqlite-driver.ts:40-79 | cuts fall exactly after semicolons outside literals, quoted identifiers and comments |
| `SqlScript.OnlyLastLacksCode` | packages/engine/standalone/sqlite-driver.ts:67-77 | only the last chunk can be without code |
| `SqlScript.ExecutionCoversScript` | packages/engine/standalone/sqlite-driver.ts:235-258 | executed statements are whole chunks from the front in script order without gap or overlap, a failure is at the next text, and normal return leaves no code behind |
| `SqlScript.Exec` | packages/engine/standalone/sqlite-driver.ts:219-258 | the generator with its buffer executes exactly the shortest complete statements in order up to the first failure, and finalizes everything it compiled |
| `SqlScript.Prepare` | packages/engine/standalone/sqlite-driver.ts:260-274 | a script with at most one chunk of code is prepared exactly when SQLite accepts it; any other exactly when it holds one statement, is rejected as several exactly when all compile, and otherwise fails, leaving open exactly the statements compiled before; a prepared statement stands for the whole script |
| `SqlScript.FailingPrepareLeaks` | packages/engine/standalone/sqlite-driver.ts:265-266 | two statements of which the second is invalid: the first stays open |
| `ScriptEnds.WhiteIsSpace` | packages/engine/standalone/sqlite-driver.ts:73-73 | the characters taken for white space are those ECMAScript lists |
| `ScriptEnds.CutAtSemicolons` | packages/engine/standalone/sqlite-driver.ts:40-79 | a script written as pieces is cut exactly after its semicolon pieces and at its end: nothing inside quotes, doubled or not, or comments cuts |
| `ScriptEnds.PiecesRead` | packages/engine/standalone/sqlite-driver.ts:52-76 | white space, comments, quoted runs, plain characters and semicolons are each read as what they are |
| `ScriptEnds.RestIsNoCode` | packages/engine/standalone/sqlite-driver.ts:67-78 | after a terminator, white space and comments alone, also broken off, are one chunk without code |
| `ScriptEnds.OtherIsCode` | packages/engine/standalone/sqlite-driver.ts:72-75 | any other character that opens no comment gives its chunk code |
| `ScriptEnds.RestRunsNothing` | packages/engine/standalone/sqlite-driver.ts:235-258 | running a script with such a rest is running it without: the same statements and outcome |
| `ScriptEnds.PrepareWithAndWithout` | packages/engine/standalone/sqlite-driver.ts:260-274 | the same verdict and the same statements left open for preparing |
| `Events.WrappingPreservesMeaning` | packages/sdk-rust/src/events.rs:76-154 | an event without payload and its wrapped form normalize to the same result if and only if it is not a reaction that names a channel |
| `Events.WrappedReactionSaysNothing` | packages/sdk-rust/src/events.rs:187-226 | a reaction that is normalized as it is and not when wrapped |
| `Events.WrapMovesFields` | packages/sdk-rust/src/events.rs:244-313 | wrapping moves every lookup one level down and leaves nothing above |
| `Events.PairedTableAgrees` | packages/sdk-rust/src/events.rs:244-313 | a lookup table of outer rows followed by the same inner rows finds the same string in both forms |
| `Events.SenderAgrees` | packages/sdk-rust/src/events.rs:394-440 | the sender is the same in both forms |
| `Events.AgentIdAgrees` | packages/sdk-rust/src/events.rs:383-392 | the sender's agent id is the same in both forms |
| `Events.PresenceAgrees` | packages/sdk-rust/src/events.rs:349-362 | the presence sender is the same in both forms |
| `Events.ChannelAgrees` | packages/sdk-rust/src/events.rs:519-566 | channel and conversation context are the same in both forms |
| `Events.TargetAgrees` | packages/sdk-rust/src/events.rs:449-517 | the target is the same in both forms |
| `Events.TextAgrees` | packages/sdk-rust/src/events.rs:568-602 | the text is the same in both forms |
| `Events.ThreadAgrees` | packages/sdk-rust/src/events.rs:604-615 | the thread id is the same in both forms |
| `Events.SenderKindAgrees` | packages/sdk-rust/src/events.rs:643-725 | the sender kind, found by label or container, is the same in both forms |
| `Events.ReactionIsLost` | packages/sdk-rust/src/events.rs:187-226 | a wrapped reaction normalizes to nothing |
| `Events.DirectByConversation` | packages/sdk-rust/src/events.rs:76-154 | a channel message counts as direct exactly when it has a conversation and no channel, with the matching priority |
| `EventMeaning.NormalizedMeans` | packages/sdk-rust/src/events.rs:76-154 | every field of a normalized event from the event's own fields: kind, sender, agent id, sender kind, target, text, thread, id, priority, and the presence and reaction events |
| `EventMeaning.NormalizedIff` | packages/sdk-rust/src/events.rs:76-120 | exactly the events of a known type that say enough are normalized |
| `EventMeaning.PicksOnce` | packages/sdk-rust/src/events.rs:270-290 | the first usable candidate is determined |
| `EventMeaning.TextPicks` | packages/sdk-rust/src/events.rs:568-602 | the text is the first of text, body, content in four places, else the message itself |
| `EventMeaning.SenderPicks` | packages/sdk-rust/src/events.rs:394-447 | the sender is the first named person, gateway identities shown as the dashboard |
| `EventMeaning.TargetPicks` | packages/sdk-rust/src/events.rs:449-517 | the target of direct, channel and thread messages |
| `EventMeaning.IdsPick` | packages/sdk-rust/src/events.rs:364-392 | event id, agent id and thread id |
| `EventMeaning.SenderKindPicks` | packages/sdk-rust/src/events.rs:643-725 | the sender's kind by label, else by the labelled sender object |
| `EventMeaning.PresencePicks` | packages/sdk-rust/src/events.rs:349-362 | the presence sender |
| `EventMeaning.ReactionPicks` | packages/sdk-rust/src/events.rs:187-226 | a reaction is normalized exactly with a channel name, from the top fields |
| `EventMeaning.TypesAreParsed` | packages/sdk-rust/src/events.rs:315-347 | the kind each event type names |
| `Casing.KeyRoundTripsIff` | packages/sdk-typescript/src/casing.ts:21-27 | a key survives camelizing and decamelizing exactly when it has no ASCII uppercase letter |
| `Casing.CamelIsInjective` | packages/sdk-typescript/src/casing.ts:21-23 | renaming merges no two such keys |
| `Casing.CamelizeRenames` | packages/sdk-typescript/src/casing.ts:58-70 | where no two names merge every field is renamed in place and none is lost |
| `Casing.ProtoIsLost` | packages/sdk-typescript/src/casing.ts:62-67 | assigning to `__proto__` makes no field, any other name holds what was assigned |
| `Casing.RoundTripIff` | packages/sdk-typescript/src/casing.ts:46-84 | decamelizing a camelized document gives it back exactly when its renamed keys have no uppercase letter and are not `__proto__` |
| `Casing.VerbatimSurvivesRenaming` | packages/sdk-typescript/src/casing.ts:46-56 | renaming, either way, moves no key into or out of the verbatim set |
| `Casing.VerbatimIsUntouched` | packages/sdk-typescript/src/casing.ts:58-84 | a value under a verbatim key comes through camelizing and decamelizing untouched at any depth, in every document in which no two fields merge |
| `Casing.NamedFieldsAreVerbatim` | packages/sdk-typescript/src/casing.ts:46-84 | the nine verbatim fields by name keep their values under their names in the other casing; all other values are transformed |
| `Casing.CleanStaysApart` | packages/sdk-typescript/src/casing.ts:58-70 | documents without uppercase keys merge nothing |
| `Casing.CamelizeKeys` | packages/sdk-typescript/src/casing.ts:58-70 | the loop that fills `out` computes the model's renaming |
| `Casing.DecamelizeKeys` | packages/sdk-typescript/src/casing.ts:72-84 | likewise for the inverse |
| `CanonicalJson.BeforeIsTotal` | packages/actors-workspace/deploy/bundle.ts:75-84 | the enumeration order of rebuilt objects is a strict total order on names |
| `CanonicalJson.IndexNamesAre` | packages/actors-workspace/deploy/bundle.ts:78-82 | the names enumerated first are the decimal numerals up to 4294967294 |
| `CanonicalJson.ArrangedEqualIff` | packages/actors-workspace/deploy/bundle.ts:78-82 | two rebuilt objects are equal exactly when they hold the same fields: the sorted permutation is unique |
| `CanonicalJson.CanonicalIffSame` | packages/actors-workspace/deploy/bundle.ts:75-85 | two documents have one canonical form if and only if they differ only in object key order, at any depth |
| `CanonicalJson.CanonicalIsSame` | packages/actors-workspace/deploy/bundle.ts:75-85 | canonicalization keeps array order, every field and every leaf |
| `CanonicalJson.CanonicalIsIdempotent` | packages/actors-workspace/deploy/bundle.ts:75-85 | doing it twice changes nothing more |
| `CanonicalJson.SortedByTextIff` | packages/actors-workspace/deploy/bundle.ts:66-84 | the rebuilt keys are in sorted order exactly when index names compare as texts as they do as numbers and each comes before every other name |
| `CanonicalJson.IndexNamesEscapeSorting` | packages/actors-workspace/deploy/bundle.ts:78-82 | for the names 10 and 9 they are not |
| `DmCache.ResolveRemembers` | packages/sdk-rust/src/dm_participants.rs:87-138 | after every run with a monotone clock in which no other conversation with the same key was resolved: an unasked reply is the latest lookup of that conversation younger than its time to live, or empty after a recent failure or for a blank id; otherwise one lookup is made and passed on; nothing is asked again needlessly while the cache is large enough |
| `DmCache.AlwaysRemembersIff` | packages/sdk-rust/src/dm_participants.rs:87-138 | for every set of workspace ids and all settings, every call of every run behaves so if and only if no id continues another at a colon or nothing stored is ever used |
| `DmCache.ContinuedIdIsConfused` | packages/sdk-rust/src/dm_participants.rs:99-114 | for any two ids of which one continues the other, a run of two calls in which the second gets the first one's answer |
| `DmCache.ColonFreeIdsRemember` | packages/sdk-rust/src/dm_participants.rs:87-138 | colon-free workspace ids are safe |
| `DmCache.InsertEvictsTheOldest` | packages/sdk-rust/src/dm_participants.rs:161-178 | the cache stays within its limit and gives up at most one entry, only when full and for a new key, and none is older |
| `DmCache.OldestIsLeast` | packages/sdk-rust/src/dm_participants.rs:167-171 | the evicted key has the least timestamp, and is the first such, whatever the iteration order |
| `DmCache.RunKeeps` | packages/sdk-rust/src/dm_participants.rs:87-178 | every entry mirrors the latest lookup under its key, and all keys are held while they fit |
| `DmCache.ColonConfusesConversations` | packages/sdk-rust/src/dm_participants.rs:99-99 | with a colon in a workspace id a conversation gets another's participants |
| `DmCache.DmParticipantsCache.WithOptions` | packages/sdk-rust/src/dm_participants.rs:61-68 | a fresh cache is empty and satisfies the invariant |
| `DmCache.DmParticipantsCache.constructor` | packages/sdk-rust/src/dm_participants.rs:53-59 | a default cache keeps successes 30 s, failures 5 s and at most 8192 entries |
| `DmCache.DmParticipantsCache.Clear` | packages/sdk-rust/src/dm_participants.rs:81-83 | clearing forgets every answer |
| `DmCache.DmParticipantsCache.InsertEntry` | packages/sdk-rust/src/dm_participants.rs:161-178 | the in-place insert is the model's |
| `DmCache.DmParticipantsCache.Resolve` | packages/sdk-rust/src/dm_participants.rs:87-138 | one call performs the model's step and keeps the invariant |
| `DmCache.DmParticipantsCache.ResolveOrEmpty` | packages/sdk-rust/src/dm_participants.rs:141-159 | the same with errors as empty lists |
| `Strings.ColonJoinsCollideIff` | packages/sdk-rust/src/dm_participants.rs:99-99 | two pairs share a key exactly when the longer first part continues the shorter with a colon; colon-free ones never do |
| `Strings.SpaceIsListed` | packages/sdk-rust/src/dm_participants.rs:93-94 | the characters `trim` removes are those with the White_Space property |
| `Strings.TrimPadded` | packages/sdk-rust/src/dm_participants.rs:93-94 | trimming takes away the white space around a text and nothing else |
| `Strings.JsTrimPadded` | packages/actors-gateway/src/workspaceId.ts:60-60 | likewise in JavaScript |
| `Strings.LowerReplaces` | packages/sdk-rust/src/events.rs:700-706 | lower case replaces exactly the 26 capitals |
| `RetryLayers.PerformIsBounded` | packages/sdk-rust/src/client.rs:302-410 | at most three sends and ten seconds of sleep; a resend follows only an admission denial, or a server error if the verb or a key makes that harmless |
| `RetryLayers.PerformReportsLast` | packages/sdk-rust/src/client.rs:302-410 | the outcome is what the last answer means when no attempt is left |
| `RetryLayers.RegisterIsBounded` | packages/sdk-rust/src/registration.rs:305-400 | one registration: three sends, ten seconds, cooldowns of at most five minutes; blocked exactly during a cooldown |
| `RetryLayers.RetryIsBounded` | packages/sdk-rust/src/registration.rs:521-540 | the outer loop's budget from any attempt on; exhausted only after every remaining attempt reached the server, a blocked first one excepted |
| `RetryLayers.RegistrationBudget` | packages/sdk-rust/src/registration.rs:521-540 | after every run one retried registration sends at most 9 requests and sleeps at most 630 s, resending only after an admission denial, a rate limit or a failed exchange |
| `RetryLayers.BudgetIsReached` | packages/sdk-rust/src/registration.rs:273-285 | a workspace that stays busy is asked 9 times in 630 s |
| `RetryLayers.CooldownIsRespected` | packages/sdk-rust/src/registration.rs:210-224 | over every run of one client nothing is sent for a name during a rate-limit cooldown not cleared by hand |
| `RegistrationRules.RepeatsIff` | packages/sdk-rust/src/client.rs:302-410 | a request is repeated exactly when it was turned away, or failed and is harmless to repeat, with attempts left, after the pause the server asks, at most five seconds |
| `RegistrationRules.LastIsReported` | packages/sdk-rust/src/client.rs:334-407 | an answer that is not followed up is reported as what it says, with status and code |
| `RegistrationRules.GrantedIsCached` | packages/sdk-rust/src/registration.rs:312-349 | after a success the next registration of the name returns the token and sends nothing |
| `RegistrationRules.RetriedIsCached` | packages/sdk-rust/src/registration.rs:521-540 | likewise after the retry loop |
| `RegistrationRules.SeededIsReturned` | packages/sdk-rust/src/registration.rs:200-207 | a seeded token is returned |
| `RegistrationRules.GrantedNamesAreNotAskedAgain` | packages/sdk-rust/src/registration.rs:305-400 | over every run nothing is sent for a name between an answer that granted its token and its clearing |
| `RegistrationRules.ClearedIsForgotten` | packages/sdk-rust/src/registration.rs:227-234 | clearing removes token and cooldown of that name only |
| `RegistrationRules.ClearedOnMatchIff` | packages/sdk-rust/src/registration.rs:243-268 | conditional clearing clears exactly when the current token has the digest |
| `RegistrationRules.RateLimitHolds` | packages/sdk-rust/src/registration.rs:26-31 | a rate limit blocks the name for the time the server says, at most five minutes, else one |
| `RegistrationRules.BlockedIff` | packages/sdk-rust/src/registration.rs:316-321 | during it registering fails at once and sends nothing, otherwise it sends |
| `RegistrationRules.RetryWaits` | packages/sdk-rust/src/registration.rs:273-285 | the retry loop waits until the name is free, or two seconds after a failed exchange |
| `RetryLayers.LastAnswerDecides` | packages/sdk-rust/src/registration.rs:340-440 | success, exhaustion and a taken name are each reported exactly when the last answer says so |
| `RetryLayers.FirstAnswerIsFinalIff` | packages/sdk-rust/src/registration.rs:433-488 | the first request is followed by another if and only if its answer was an admission denial, a rate limit or never fully arrived |
| `RetryLayers.BrokenServerErrorIsResent` | packages/sdk-rust/src/registration.rs:463-488 | a server error with a broken body is sent three times |
| `RetryLayers.AgentRegistrationClient.constructor` | packages/sdk-rust/src/registration.rs:190-197 | a new client has no tokens and no cooldowns |
| `RetryLayers.AgentRegistrationClient.SeedAgentToken` | packages/sdk-rust/src/registration.rs:200-202 | seeding adds the token and nothing else |
| `RetryLayers.AgentRegistrationClient.RegistrationBlockRemaining` | packages/sdk-rust/src/registration.rs:210-224 | the time left, dropping an expired cooldown |
| `RetryLayers.AgentRegistrationClient.InvalidateCachedRegistration` | packages/sdk-rust/src/registration.rs:227-234 | token and cooldown of the name are removed |
| `RetryLayers.AgentRegistrationClient.InvalidateCachedRegistrationIf` | packages/sdk-rust/src/registration.rs:243-268 | the same only when the digest of the current token matches |
| `RetryLayers.AgentRegistrationClient.RequestWithCursor` | packages/sdk-rust/src/client.rs:302-410 | the loop performs the model's attempts |
| `RetryLayers.AgentRegistrationClient.RegisterAgentToken` | packages/sdk-rust/src/registration.rs:305-400 | tokens and cooldowns are updated as the model says, keeping the invariant |
| `RetryLayers.AgentRegistrationClient.RetryAgentRegistration` | packages/sdk-rust/src/registration.rs:521-540 | the loop performs the model's attempts and sleeps, keeping the invariant |
| `ReactStore.StepAt` | packages/react/src/reducer.ts:65-274 | no event loses or moves a stored message, and it changes only by the edit the event makes |
| `ReactStore.StepAppears` | packages/react/src/reducer.ts:65-124 | a message appears only through an event that stores it there |
| `ReactStore.RepeatsDoNotMatter` | packages/react/src/reducer.ts:64-124 | dropping later repeats of created messages and replies from any stream leaves the same store |
| `StoreContents.CreatedIsAppended` | packages/react/src/reducer.ts:65-88 | a new message is appended with the event's id, author and text |
| `StoreContents.RepliedIsAppended` | packages/react/src/reducer.ts:100-122 | a new reply likewise |
| `StoreContents.ListedInOrder` | packages/react/src/reducer.ts:65-122 | every timeline and thread lists its messages once, in the order they first came |
| `StoreContents.CreatedShows` | packages/react/src/reducer.ts:65-98 | over every stream a message shows its author and the text of its last update |
| `StoreContents.ShowsLatestText` | packages/react/src/reducer.ts:90-98 | likewise from any store |
| `StoreContents.OthersAreUntouched` | packages/react/src/reducer.ts:65-274 | messages with other ids or in other places stay as they are |
| `StoreContents.ParentCountsReplies` | packages/react/src/reducer.ts:126-131 | a new reply counts on the parent kept with its thread |
| `StoreContents.ParentIsReacted` | packages/react/src/reducer.ts:207-226 | a reaction to the kept parent changes its reactions only |
| `ReactStore.ReplyCountGrowsIff` | packages/react/src/reducer.ts:124-150 | from any store, a shown message counts exactly the distinct replies not in its thread before if and only if its channel is the first to show it at every first arrival |
| `ReactStore.ReplyCountIsRepliesSinceAddedIff` | packages/react/src/reducer.ts:100-150 | over every stream, the reply count is the number of distinct replies first received since the message was added if and only if its channel is the first in enumeration order to show the id at each such arrival |
| `ReactStore.ReplyCountIsRepliesSinceAdded` | packages/react/src/reducer.ts:100-150 | in particular wherever ids are unique across channels |
| `ReactStore.SharedIdIsCountedOnce` | packages/react/src/reducer.ts:133-149 | a stream that shows one id in two channels: the first counts the reply, the second does not |
| `ReactStore.AddMeans` | packages/react/src/reducer.ts:178-192 | adding a reaction adds exactly that vote to tidy groups |
| `ReactStore.RemoveMeansIff` | packages/react/src/reducer.ts:234-248 | removing one takes exactly that vote and leaves tidy groups if and only if the agent reacted so or nobody did |
| `ReactStore.RemoveUnlisted` | packages/react/src/reducer.ts:234-248 | otherwise the count falls below the agents, or the group and its one vote vanish |
| `ReactStore.ReactionsCountAgentsIff` | packages/react/src/reducer.ts:152-274 | along a whole run the groups count the distinct agents the stream leaves standing if and only if every removal is orderly |
| `ReactStore.LookupPut` | packages/react/src/store.ts:40-56 | updating one entry leaves every other one |
| `ReactStore.RelayStore.constructor` | packages/react/src/store.ts:20-22 | a new store is empty |
| `ReactStore.RelayStore.UpdateChannelMessages` | packages/react/src/store.ts:40-47 | the entry becomes the updater's value, from the default if there was none |
| `ReactStore.RelayStore.UpdateThread` | packages/react/src/store.ts:49-56 | likewise for threads |
| `ReactStore.RelayStore.HandleMessageCreated` | packages/react/src/reducer.ts:65-88 | a new id is appended, a known one changes nothing |
| `ReactStore.RelayStore.HandleMessageUpdated` | packages/react/src/reducer.ts:90-98 | the text of a known message is replaced |
| `ReactStore.RelayStore.HandleThreadReply` | packages/react/src/reducer.ts:100-150 | a new reply is appended and counted on the thread's parent and the first channel that shows it |
| `ReactStore.RelayStore.HandleMessageReacted` | packages/react/src/reducer.ts:164-274 | the loops over channels and threads edit every copy |
| `ReactStore.RelayStore.HandleServerEvent` | packages/react/src/reducer.ts:18-32 | every event performs the model's step and keeps the keys distinct |
| `Calendar.CivilOfIsRight` | packages/sdk-rust/src/credentials.rs:149-194 | for every second count the walk ends in a valid Gregorian date and time whose closed-form distance from the epoch is that count |
| `Calendar.YearWalk` | packages/sdk-rust/src/credentials.rs:157-170 | the year loop agrees with the closed form for days before a year |
| `Calendar.MonthWalk` | packages/sdk-rust/src/credentials.rs:171-194 | the month loop agrees with the cumulative table and ends within December |
| `Calendar.EarlierIffFewerSeconds` | packages/sdk-rust/src/credentials.rs:142-197 | calendar order is time order |
| `Calendar.TimestampIsInvertible` | packages/sdk-rust/src/credentials.rs:196-196 | the printed text determines the second count, beyond the year 9999 too |
| `Calendar.TextOrderIsTimeOrder` | packages/sdk-rust/src/credentials.rs:196-196 | up to the end of 9999 text order is time order |
| `Calendar.TextOrderHoldsIff` | packages/sdk-rust/src/credentials.rs:196-196 | it is for all counts up to a limit exactly when the limit lies before the year 10000 |
| `Calendar.NowIso8601` | packages/sdk-rust/src/credentials.rs:142-197 | the loops print the timestamp whose reading is the given second |
| `KeyedWorkspace.DeriveKeyedWorkspaceId` | packages/engine/src/gateway.ts:50-59 | the shift-or loop yields the numeral of the first eight bytes, big-endian, modulo 2^63 with zero replaced by one: in [1, 2^63-1] |
| `KeyedWorkspace.OrIsPlus` | packages/engine/src/gateway.ts:56-56 | shifting left and or-ing a byte is multiplying by 256 and adding it |
| `KeyedWorkspace.MaskIsRemainder` | packages/engine/src/gateway.ts:57-57 | masking with a run of ones is taking the remainder |
| `KeyedWorkspace.TextsCollideIff` | packages/engine/src/gateway.ts:53-54 | two creates hash one text exactly when scope and key agree or owner ids run into keys at a colon |
| `KeyedWorkspace.TextIsInjective` | packages/engine/src/gateway.ts:53-54 | for anonymous or colon-free owners the text determines scope and key |
| `KeyedWorkspace.ColonConfusesOwners` | packages/engine/src/gateway.ts:53-54 | with a colon in an owner id it does not |
| `KeyedWorkspace.OtherKeysHashOtherTexts` | packages/actors-gateway/src/workspaceId.ts:72-81 | for every owner the gateway can take from a credential, different owners or keys hash different texts |
| `KeyedWorkspace.ChooseWorkspaceId` | packages/actors-gateway/src/workspaceId.ts:58-82 | fresh id iff there is no key; 503 without a secret; 401 exactly for a non-owner without the required proof; else the derived id |
| `KeyedWorkspace.KeyIsPresented` | packages/actors-gateway/src/workspaceId.ts:59-62 | the key is the first presented, without white space around it; blank or absent makes the create unkeyed |
| `KeyedWorkspace.OwnerIs` | packages/actors-gateway/src/workspaceId.ts:72-74 | exactly a workspace credential makes an owner, its workspace in decimal |
| `KeyedWorkspace.ProofIsJoined` | packages/actors-gateway/src/workspaceId.ts:53-56 | a proof in parts is the parts joined by a comma and a space |
| `KeyedWorkspace.UnkeyedIsRepeatedIff` | packages/actors-gateway/src/workspaceId.ts:43-50 | an unkeyed create is repeated exactly after a 409 that says the workspace exists |
| `KeyedWorkspace.CreateWorkspace` | packages/actors-gateway/src/router.ts:141-197 | a keyed create reaches an actor iff admitted, once, at its derived id; an unkeyed one is repeated once iff its id was taken; the owner is asked only after its tag was verified; and the answer in every case, for a create the last actor's reply |
| `KeyedWorkspace.KeyedCreatesMeet` | packages/actors-gateway/src/router.ts:141-197 | over all replicas, retries and answers, creates with one key and owner reach one id |
| `KeyedWorkspace.OwnerKeyIsNotForwarded` | packages/actors-gateway/src/router.ts:160-189 | an owner's create carries no authorization, only the gateway's proof and exactly when required, and every other header |

## Left out

- Telemetry: the network send, property sanitizing, a session id passed in as a property, and two
  processes interleaved inside one capture beyond what the journal, consent and identity reads see.
- A journal that shrinks: the code relies on the file being append-only, and so do the proofs.
- Socket bridge: HTTP, TLS, timers and the handshake library; the failing handshake that is closed
  with 1011 is recorded as an answer without the bytes it is fed.
- Frame pipe: frame headers and compression; sizes are those of payloads.
- FramePipe.ActorStreamIsGaplessIff: says when the actor misses nothing in between, not that a frame
  handed to the library arrives.
- SqlScript: tracking of live statements, garbage collection and `close`; bound parameters.
- SqlScript.Prepare: compiling is taken not to depend on earlier statements, as none is run.
- Events: command invocations, and the hash behind synthesized ids, which is an arbitrary function.
- Casing and canonical JSON: non-plain objects and numbers as values; strings with lone surrogates.
- Canonical JSON: the hash itself, and artifact planning.
- RetryLayers: command-line metadata of a registration, request ids and error texts; several tasks
  sharing one client, where a send can overlap another task's cooldown.
- DmCache: a runtime clock that runs backwards.
- ReactStore: presence, channel, membership and inbox events, timestamps, loading and error fields,
  listeners; channel names and ids that name inherited object properties, such as `constructor`.
- ReactStore.ReactionsCountAgentsIff: speaks of timelines and replies; the parent copy kept with a
  thread is edited by the same functions but only exists after a fetch.
- Calendar: a clock before 1970, which the code reads as 1970.
- Keyed workspaces: HMAC, UTF-8 encoding of its text and credential parsing; nothing is claimed about
  hash collisions. The other routes of the gateway, long polling and readiness.
- The engine's delivery, task and node features, the command line, configuration and the user
  interface: not part of this model.
